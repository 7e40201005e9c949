/**
 Replacing, reading and copying one local file. The operating system may write less than asked,
 return less than asked, fail at any call, and the process may be killed between any two calls: what
 matters is every state the directory has been in, not only the last one.
 */
module LocalIo {
  import opened Basics

  newtype Byte = x: int | 0 <= x < 256

  type Bytes = seq<Byte>
  type Files = map<string, Bytes>

  function Get(files: Files, name: string): Option<Bytes> {
    if name in files then Some(files[name]) else None
  }

  // The names `safe_write_bytes_at` accepts: one path component.
  predicate SafeName(name: string) { name != "" && '/' !in name && name != "." && name != ".." }

  // A path at its slashes.
  function Parts(path: string): (parts: seq<string>)
    ensures |parts| >= 1 && forall i :: 0 <= i < |parts| ==> '/' !in parts[i]
    ensures '/' !in path ==> parts == [path]
  {
    if path == "" then [""] else
    var rest := Parts(path[1..]);
    assert path == [path[0]] + path[1..];
    if path[0] == '/' then [""] + rest else [[path[0]] + rest[0]] + rest[1..]
  }

  // Where a path leads from a directory.
  function Walk(directory: seq<string>, parts: seq<string>): seq<string>
    decreases |parts|
  {
    if parts == [] then directory
    else if parts[0] == "" || parts[0] == "." then Walk(directory, parts[1..])
    else if parts[0] == ".." then Walk(if directory == [] then [] else directory[..|directory| - 1], parts[1..])
    else Walk(directory + [parts[0]], parts[1..])
  }

  lemma {:induction false} WalkEntersParts(directory: seq<string>, parts: seq<string>, x: string)
    requires x in Walk(directory, parts)
    ensures x in directory || (x in parts && x != "" && x != "." && x != "..")
    decreases |parts|
  {
    if parts != [] {
      if parts[0] == "" || parts[0] == "." { WalkEntersParts(directory, parts[1..], x); }
      else if parts[0] == ".." { WalkEntersParts(if directory == [] then [] else directory[..|directory| - 1], parts[1..], x); }
      else { WalkEntersParts(directory + [parts[0]], parts[1..], x); }
    }
  }

  /** A name is accepted exactly if it is an entry of the directory it is looked up in, whichever that is. */
  lemma SafeIffOwnEntry(name: string)
    ensures SafeName(name) <==> forall directory :: Walk(directory, Parts(name)) == directory + [name]
  {
    if SafeName(name) {
      forall directory ensures Walk(directory, Parts(name)) == directory + [name] {
        assert Parts(name)[1..] == [];
      }
    }
    if forall directory :: Walk(directory, Parts(name)) == directory + [name] {
      assert Walk([], Parts(name)) == [] + [name];
      assert name in Walk([], Parts(name));
      WalkEntersParts([], Parts(name), name);
    }
  }

  function TemporaryName(name: string, token: string): (t: string)
    ensures t != name
  {
    var t := "." + name + ".sanka-" + token + ".tmp";
    assert |t| > |name|;
    t
  }

  // A state in which the target holds its old content or all of the new one, and no other file but
  // the temporary one differs from before.
  ghost predicate Intact(now: Files, before: Files, name: string, temporary: string, content: Bytes) {
    && (Get(now, name) == Get(before, name) || Get(now, name) == Some(content))
    && forall k :: k != name && k != temporary ==> Get(now, k) == Get(before, k)
  }

  // At least n answers left, none of them an error.
  predicate Willing(answers: seq<int>, n: int) { |answers| >= n && forall i :: 0 <= i < |answers| ==> answers[i] > 0 }

  // While the new content is being written: only the temporary file differs.
  ghost predicate Pending(now: Files, before: Files, temporary: string) {
    forall k :: k != temporary ==> Get(now, k) == Get(before, k)
  }

  // ------------------------------------------------------------------ reading

  // A file at one moment: its bytes, and what fstat tells apart (inode, size, times, links).
  datatype Snapshot = Snapshot(content: Bytes, version: nat)

  // A file over time, one moment per call: every change moves fstat on, and never back.
  ghost predicate Honest(file: nat -> Snapshot) {
    forall i: nat, j: nat :: i <= j ==>
      file(i).version <= file(j).version && (file(i).version == file(j).version ==> file(i).content == file(j).content)
  }

  const CHUNK: nat := 1024 * 1024

  function Min(a: nat, b: nat): nat { if a < b then a else b }

  // What read returns, at an offset, of at most k bytes asked for: nothing only at the end of the
  // file, otherwise as many as the system cares to, at least one.
  function Chunk(content: Bytes, offset: nat, k: nat, count: nat): (chunk: Bytes)
    requires k >= 1
    ensures |chunk| <= k && (chunk == [] <==> offset >= |content|)
    ensures offset <= |content| ==> content[..offset] + chunk <= content
  {
    if offset >= |content| then [] else
    var n := Min(Min(|content| - offset, k), if count == 0 then 1 else count);
    assert content[..offset] + content[offset..offset + n] == content[..offset + n];
    content[offset..offset + n]
  }

  /** `safe_read_bytes_at`, once the file is open: what it returns is the whole content of a file
      that did not change, within the limit; it always asks for at least one byte and takes at most
      one byte more than the limit. Where nothing fails or changes, it returns unless the file is
      larger than the limit. */
  method ReadBytes(file: nat -> Snapshot, counts: nat -> int, maxBytes: int) returns (r: Option<Bytes>, taken: nat, ghost asked: seq<nat>)
    requires Honest(file)
    ensures r.Some? ==> r.value == file(0).content && |r.value| <= maxBytes
    ensures (forall i: nat :: file(i) == file(0) && counts(i) >= 0) ==> (r.Some? <==> |file(0).content| <= maxBytes)
    ensures (forall i :: 0 <= i < |asked| ==> 1 <= asked[i] <= CHUNK) && (maxBytes >= 0 ==> taken <= maxBytes + 1)
  {
    r, taken, asked := None, 0, [];
    if maxBytes < 0 || |file(0).content| > maxBytes { return; }
    var got: Bytes := [];
    var t: nat := 0;
    while true
      invariant |got| <= maxBytes && taken == |got|
      invariant file(t).version == file(0).version ==> got <= file(0).content
      invariant forall i :: 0 <= i < |asked| ==> 1 <= asked[i] <= CHUNK
      decreases maxBytes - |got|
    {
      var k := Min(CHUNK, maxBytes - |got| + 1);
      asked := asked + [k];
      t := t + 1;
      assert file(t - 1).version <= file(t).version;
      assert file(0).version <= file(t - 1).version;
      if counts(t) < 0 { return; }
      var chunk := Chunk(file(t).content, |got|, k, counts(t));
      if chunk == [] { break; }
      ghost var before := got;
      got := got + chunk;
      taken := |got|;
      assert file(t).version == file(0).version ==> before == file(0).content[..|before|];
      if taken > maxBytes { return; }
    }
    var final := file(t + 1);
    assert file(0).version <= file(t).version <= file(t + 1).version;
    if final.version != file(0).version { return; }
    r := Some(got);
  }

  // ------------------------------------------------------------------ replacing

  lemma PendingIsIntact(now: Files, before: Files, name: string, temporary: string, content: Bytes)
    requires Pending(now, before, temporary) && name != temporary
    ensures Intact(now, before, name, temporary, content)
    ensures Intact(now - {temporary}, before, name, temporary, content)
  {}

  lemma Published(now: Files, before: Files, name: string, temporary: string, content: Bytes)
    requires Pending(now, before, temporary) && name != temporary && temporary !in before
    ensures (now - {temporary})[name := content] == before[name := content]
    ensures Intact(before[name := content], before, name, temporary, content)
    ensures Intact(before[name := content] - {temporary}, before, name, temporary, content)
  {
    var after := (now - {temporary})[name := content];
    forall k ensures Get(after, k) == Get(before[name := content], k) {
      assert k != temporary ==> Get(now, k) == Get(before, k);
    }
    assert after.Keys == before[name := content].Keys by {
      forall k ensures k in after <==> k in before[name := content] {
        assert Get(after, k) == Get(before[name := content], k);
      }
    }
    forall k | k in after ensures after[k] == before[name := content][k] {
      assert Get(after, k) == Get(before[name := content], k);
    }
  }

  class Directory {
    var files: Files
    // What the operating system answers to each call: negative is an error, for a write the number
    // of bytes it takes. When the answers run out every call fails.
    var answers: seq<int>
    // Every state the directory has been in, the present one last.
    ghost var history: seq<Files>

    ghost predicate Valid()
      reads this
    {
      history != [] && history[|history| - 1] == files
    }

    constructor (files: Files, answers: seq<int>)
      ensures Valid() && this.files == files && this.answers == answers && history == [files]
    {
      this.files, this.answers, history := files, answers, [files];
    }

    // A call that changes nothing in the directory.
    method Ask() returns (answer: int)
      modifies this`answers
      ensures answer == if old(answers) == [] then -1 else old(answers)[0]
      ensures answers == if old(answers) == [] then [] else old(answers)[1..]
    {
      if answers == [] { return -1; }
      answer, answers := answers[0], answers[1..];
    }

    method Become(now: Files)
      requires Valid()
      modifies this`files, this`history
      ensures Valid() && files == now && history == old(history) + [now]
    {
      files, history := now, history + [now];
    }

    // open with O_CREAT and O_EXCL
    method Create(temporary: string) returns (ok: bool)
      requires Valid()
      modifies this
      ensures answers == if old(answers) == [] then [] else old(answers)[1..]
      ensures Willing(old(answers), 1) && temporary !in old(files) ==> ok
      ensures Valid() && (ok ==> temporary !in old(files))
      ensures files == if ok then old(files)[temporary := []] else old(files)
      ensures history == if ok then old(history) + [files] else old(history)
    {
      var answer := Ask();
      ok := answer >= 0 && temporary !in files;
      if ok { Become(files[temporary := []]); }
    }

    // write: the number of bytes taken, not positive for an error
    method Write(temporary: string, view: Bytes) returns (written: int)
      requires Valid() && temporary in files && view != []
      modifies this
      ensures answers == if old(answers) == [] then [] else old(answers)[1..]
      ensures Willing(old(answers), 1) ==> written > 0
      ensures Valid() && written <= |view|
      ensures written <= 0 ==> files == old(files) && history == old(history)
      ensures written > 0 ==> files == old(files)[temporary := old(files)[temporary] + view[..written]]
      ensures written > 0 ==> history == old(history) + [files]
    {
      written := Ask();
      if written > |view| { written := |view|; }
      if written > 0 { Become(files[temporary := files[temporary] + view[..written]]); }
    }

    // rename over the target
    method Replace(temporary: string, name: string) returns (ok: bool)
      requires Valid() && temporary in files && temporary != name
      modifies this
      ensures answers == if old(answers) == [] then [] else old(answers)[1..]
      ensures Willing(old(answers), 1) ==> ok
      ensures Valid()
      ensures files == if ok then (old(files) - {temporary})[name := old(files)[temporary]] else old(files)
      ensures history == if ok then old(history) + [files] else old(history)
    {
      var answer := Ask();
      ok := answer >= 0;
      if ok { Become((files - {temporary})[name := files[temporary]]); }
    }

    // unlink
    method Unlink(temporary: string) returns (ok: bool)
      requires Valid()
      modifies this
      ensures Valid()
      ensures files == if ok then old(files) - {temporary} else old(files)
      ensures history == if ok then old(history) + [files] else old(history)
    {
      var answer := Ask();
      ok := answer >= 0;
      if ok { Become(files - {temporary}); }
    }

    /** `_write_all`: on return everything is written, after any number of short writes; on failure
        some prefix is. */
    method WriteAll(temporary: string, content: Bytes) returns (ok: bool)
      requires Valid() && temporary in files
      modifies this
      ensures Valid() && |history| >= |old(history)| && history[..|old(history)|] == old(history)
      ensures forall i :: |old(history)| <= i < |history| ==> Pending(history[i], old(files), temporary)
      ensures temporary in files && Pending(files, old(files), temporary)
      ensures Willing(old(answers), |content|) ==> ok && Willing(answers, |old(answers)| - |content|)
      ensures ok ==> files[temporary] == old(files)[temporary] + content
      ensures old(files)[temporary] <= files[temporary] <= old(files)[temporary] + content
    {
      var view := content;
      var done: nat := 0;
      while view != []
        invariant Valid() && temporary in files && Pending(files, old(files), temporary)
        invariant |history| >= |old(history)| && history[..|old(history)|] == old(history)
        invariant forall i :: |old(history)| <= i < |history| ==> Pending(history[i], old(files), temporary)
        invariant done <= |content| && view == content[done..]
        invariant files[temporary] == old(files)[temporary] + content[..done]
        invariant Willing(old(answers), |content|) ==> Willing(answers, |old(answers)| - done)
        decreases |view|
      {
        var written := Write(temporary, view);
        if written <= 0 {
          return false;
        }
        assert content[..done] + view[..written] == content[..done + written];
        view, done := view[written..], done + written;
      }
      return true;
    }

    // What follows the last write: sync, check, close, replace, check again, sync the directory.
    method Publish(temporary: string, name: string) returns (ok: bool)
      requires Valid() && temporary in files && temporary != name
      modifies this
      ensures Valid() && |history| >= |old(history)| && history[..|old(history)|] == old(history)
      ensures files == old(files) || files == (old(files) - {temporary})[name := old(files)[temporary]]
      ensures forall i :: |old(history)| <= i < |history| ==> history[i] == files
      ensures ok ==> files == (old(files) - {temporary})[name := old(files)[temporary]]
      ensures Willing(old(answers), 6) ==> ok
    {
      var sync := Ask();
      if sync < 0 { return false; }
      var stat := Ask();
      if stat < 0 { return false; }
      var close := Ask();
      if close < 0 { return false; }
      ok := Replace(temporary, name);
      if !ok { return; }
      var check := Ask();
      if check < 0 { return false; }
      var syncDirectory := Ask();
      ok := syncDirectory >= 0;
    }

    // The handler of every failure once the temporary file may exist: close it, remove it.
    method Discard(temporary: string)
      requires Valid()
      modifies this
      ensures Valid() && |history| >= |old(history)| && history[..|old(history)|] == old(history)
      ensures files == old(files) || files == old(files) - {temporary}
      ensures forall i :: |old(history)| <= i < |history| ==> history[i] == files
    {
      var close := Ask();
      if close < 0 { return; }
      var _ := Unlink(temporary);
    }

    // Creating the temporary file and writing all of the content to it.
    method Stage(temporary: string, content: Bytes) returns (ok: bool)
      requires Valid()
      modifies this
      ensures Valid() && |history| >= |old(history)| && history[..|old(history)|] == old(history)
      ensures forall i :: |old(history)| <= i < |history| ==> Pending(history[i], old(files), temporary)
      ensures Pending(files, old(files), temporary)
      ensures ok ==> temporary !in old(files) && temporary in files && files[temporary] == content
      ensures Willing(old(answers), |content| + 1) && temporary !in old(files) ==> ok && Willing(answers, |old(answers)| - |content| - 1)
    {
      ok := Create(temporary);
      if !ok { return; }
      ghost var begun := files;
      ok := WriteAll(temporary, content);
      assert Pending(begun, old(files), temporary);
    }

    // Publishing what was staged, or clearing up.
    method Conclude(staged: bool, name: string, temporary: string, ghost before: Files, ghost content: Bytes) returns (ok: bool)
      requires Valid() && name != temporary && Pending(files, before, temporary)
      requires staged ==> temporary !in before && temporary in files && files[temporary] == content
      modifies this
      ensures Valid() && |history| >= |old(history)| && history[..|old(history)|] == old(history)
      ensures forall i :: |old(history)| <= i < |history| ==> Intact(history[i], before, name, temporary, content)
      ensures Intact(files, before, name, temporary, content)
      ensures ok ==> staged && files == before[name := content]
      ensures staged && Willing(old(answers), 6) ==> ok
    {
      ok := staged;
      PendingIsIntact(files, before, name, temporary, content);
      if ok {
        Published(files, before, name, temporary, content);
        ok := Publish(temporary, name);
      }
      ghost var tried := history;
      assert forall i :: |old(history)| <= i < |tried| ==> Intact(tried[i], before, name, temporary, content);
      if !ok { Discard(temporary); }
      assert forall i :: |old(history)| <= i < |tried| ==> history[i] == tried[i];
    }

    /** `safe_write_bytes_at`: in every state the directory goes through, and so after a failure or a
        kill at any call, the target holds its old content or all of the new; on normal return it
        holds the new content and nothing else has changed. Where no call fails it returns normally,
        however few bytes each write takes. */
    method WriteBytesAt(name: string, token: string, content: Bytes) returns (ok: bool)
      requires Valid()
      modifies this
      ensures Valid() && |history| >= |old(history)| && history[..|old(history)|] == old(history)
      ensures forall i :: |old(history)| <= i < |history| ==>
                Intact(history[i], old(files), name, TemporaryName(name, token), content)
      ensures ok ==> SafeName(name) && files == old(files)[name := content]
      ensures !ok ==> Intact(files, old(files), name, TemporaryName(name, token), content)
      ensures !SafeName(name) ==> files == old(files)
      ensures SafeName(name) && TemporaryName(name, token) !in old(files) && Willing(old(answers), |content| + 8) ==> ok
    {
      if !SafeName(name) { return false; }
      var check := Ask();
      if check < 0 { return false; }
      var temporary := TemporaryName(name, token);
      var staged := Stage(temporary, content);
      ghost var written := history;
      PendingIsIntact(files, old(files), name, temporary, content);
      assert forall i :: |old(history)| <= i < |written| ==> Intact(written[i], old(files), name, temporary, content);
      ok := Conclude(staged, name, temporary, old(files), content);
      assert forall i :: |old(history)| <= i < |written| ==> history[i] == written[i];
    }

    // The loop of `safe_copy_regular_file`: reading the source in chunks and writing each in full.
    method StageCopy(temporary: string, file: nat -> Snapshot, counts: nat -> int, maxBytes: nat) returns (ok: bool)
      requires Valid() && temporary in files && files[temporary] == [] && Honest(file)
      modifies this
      ensures Valid() && |history| >= |old(history)| && history[..|old(history)|] == old(history)
      ensures forall i :: |old(history)| <= i < |history| ==> Pending(history[i], old(files), temporary)
      ensures Pending(files, old(files), temporary) && temporary in files
      ensures ok ==> files[temporary] == file(0).content && |file(0).content| <= maxBytes
    {
      var total: nat := 0;
      var t: nat := 0;
      while true
        invariant Valid() && temporary in files && Pending(files, old(files), temporary)
        invariant |history| >= |old(history)| && history[..|old(history)|] == old(history)
        invariant forall i :: |old(history)| <= i < |history| ==> Pending(history[i], old(files), temporary)
        invariant total <= maxBytes && |files[temporary]| == total
        invariant file(t).version == file(0).version ==> files[temporary] <= file(0).content
        decreases maxBytes - total
      {
        var k := Min(CHUNK, maxBytes - total + 1);
        t := t + 1;
        assert file(0).version <= file(t - 1).version <= file(t).version;
        if counts(t) < 0 { return false; }
        var chunk := Chunk(file(t).content, total, k, counts(t));
        if chunk == [] { break; }
        ghost var written := files[temporary];
        assert file(t).version == file(0).version ==> written == file(0).content[..total];
        total := total + |chunk|;
        if total > maxBytes { return false; }
        ok := WriteAll(temporary, chunk);
        if !ok { return; }
      }
      assert file(0).version <= file(t).version <= file(t + 1).version;
      ok := file(t + 1).version == file(0).version;
    }

    method StageFile(temporary: string, file: nat -> Snapshot, counts: nat -> int, maxBytes: nat) returns (ok: bool)
      requires Valid() && Honest(file)
      modifies this
      ensures Valid() && |history| >= |old(history)| && history[..|old(history)|] == old(history)
      ensures forall i :: |old(history)| <= i < |history| ==> Pending(history[i], old(files), temporary)
      ensures Pending(files, old(files), temporary)
      ensures ok ==> temporary !in old(files) && temporary in files && files[temporary] == file(0).content && |file(0).content| <= maxBytes
    {
      ok := Create(temporary);
      if !ok { return; }
      ghost var begun := files;
      ok := StageCopy(temporary, file, counts, maxBytes);
      assert Pending(begun, old(files), temporary);
    }

    /** `safe_copy_regular_file`, once the source is open: the destination goes from its old content
        to the whole content of a source that did not change while it was read, and to nothing else,
        whatever fails. */
    method CopyFile(file: nat -> Snapshot, counts: nat -> int, maxBytes: int, name: string, token: string) returns (ok: bool)
      requires Valid() && Honest(file)
      modifies this
      ensures Valid() && |history| >= |old(history)| && history[..|old(history)|] == old(history)
      ensures forall i :: |old(history)| <= i < |history| ==>
                Intact(history[i], old(files), name, TemporaryName(name, token), file(0).content)
      ensures Intact(files, old(files), name, TemporaryName(name, token), file(0).content)
      ensures ok ==> files == old(files)[name := file(0).content] && |file(0).content| <= maxBytes
    {
      if maxBytes < 0 || |file(0).content| > maxBytes { return false; }
      var check := Ask();
      if check < 0 { return false; }
      var temporary := TemporaryName(name, token);
      ok := StageFile(temporary, file, counts, maxBytes);
      ghost var written := history;
      PendingIsIntact(files, old(files), name, temporary, file(0).content);
      assert forall i :: |old(history)| <= i < |written| ==> Intact(written[i], old(files), name, temporary, file(0).content);
      ok := Conclude(ok, name, temporary, old(files), file(0).content);
      assert forall i :: |old(history)| <= i < |written| ==> history[i] == written[i];
    }
  }
}
