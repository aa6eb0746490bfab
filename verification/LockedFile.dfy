/** Rewriting a locked file in place over writes that may fail part-way
    (internal/lockedfile/lockedfile.go). */
module LockedFile {
  import opened Options

  newtype Byte = x: int | 0 <= x < 256

  /** How the calls of one `Transform` fail. A write that fails stops after the
      given number of bytes; a fault past the end of the data is never met. */
  datatype Faults = Faults(read: bool, tail: Option<nat>, tailTruncate: bool, head: Option<nat>, truncate: bool,
                           back: Option<nat>, backTruncate: bool)

  predicate Fails(f: Option<nat>, len: nat) { f.Some? && f.value < len }

  /** The number of bytes that a write of `len` bytes gets through. */
  function Through(f: Option<nat>, len: nat): (n: nat)
    ensures n <= len && (Fails(f, len) <==> n < len)
  {
    if Fails(f, len) then f.value else len
  }

  /** Growing a file fills it with zeros. */
  function Resize(c: seq<Byte>, n: nat): (r: seq<Byte>)
    ensures |r| == n
  {
    if n <= |c| then c[..n] else c + seq(n - |c|, _ => 0)
  }

  function Put(c: seq<Byte>, at: nat, b: Byte): seq<Byte> {
    if at < |c| then c[at := b] else Resize(c, at) + [b]
  }

  /** The content after the first n bytes of `data` went to offset `off`. */
  function Over(c: seq<Byte>, data: seq<Byte>, off: nat, n: nat): seq<Byte>
    requires n <= |data|
  {
    if n == 0 then c
    else
      (if off <= |c| then c[..off] else Resize(c, off)) + data[..n] + (if off + n < |c| then c[off + n..] else [])
  }

  /** The contents on the way there, one for every byte. */
  function Steps(c: seq<Byte>, data: seq<Byte>, off: nat, n: nat): (h: seq<seq<Byte>>)
    requires n <= |data|
    ensures |h| == n && forall k | 0 <= k < n :: h[k] == Over(c, data, off, k + 1)
  {
    if n == 0 then [] else Steps(c, data, off, n - 1) + [Over(c, data, off, n)]
  }

  lemma OverStep(c: seq<Byte>, data: seq<Byte>, off: nat, n: nat)
    requires n < |data|
    ensures Put(Over(c, data, off, n), off + n, data[n]) == Over(c, data, off, n + 1)
  {
    var now, next := Over(c, data, off, n), Over(c, data, off, n + 1);
    assert data[..n + 1] == data[..n] + [data[n]];
    if off <= |c| {
      assert Put(now, off + n, data[n]) == next;
    }
  }

  /** The outcome of replacing `was` by `new`: the calls that fail, in order. */
  predicate TailFails(was: seq<Byte>, next: seq<Byte>, f: Faults) {
    |next| > |was| && Fails(f.tail, |next| - |was|)
  }

  /** How many bytes of the old content get overwritten. */
  function HeadLength(was: seq<Byte>, next: seq<Byte>): nat { if |next| >= |was| then |was| else |next| }

  predicate Succeeds(was: seq<Byte>, next: seq<Byte>, f: Faults) {
    && !TailFails(was, next, f)
    && !Fails(f.head, HeadLength(was, next))
    && (|next| < |was| ==> !f.truncate)
  }

  /** The old content is back after an error: the incomplete tail is cut off or
      was never begun, or the roll-back wrote over all that differs and cut off
      what was added. */
  predicate Restores(was: seq<Byte>, next: seq<Byte>, f: Faults) {
    if TailFails(was, next, f) then !f.tailTruncate || f.tail.value == 0
    else
      var m, n := Through(f.back, |was|), Through(f.head, HeadLength(was, next));
      && (|next| > |was| ==> m == |was| && !f.backTruncate)
      && (m < n ==> was[m..n] == next[m..n])
  }

  /** How many contents the file goes through before its head is touched. */
  function TailSteps(was: seq<Byte>, next: seq<Byte>, f: Faults): nat {
    if |next| <= |was| then 0
    else Through(f.tail, |next| - |was|) + if TailFails(was, next, f) && !f.tailTruncate then 1 else 0
  }

  // The contents on the way.

  lemma OverTail(was: seq<Byte>, tail: seq<Byte>, n: nat)
    requires n <= |tail|
    ensures Over(was, tail, |was|, n) == was + tail[..n]
  {
  }

  lemma OverHead(c: seq<Byte>, data: seq<Byte>, n: nat)
    requires n <= |data| <= |c|
    ensures Over(c, data, 0, n) == data[..n] + c[n..]
  {
  }

  /** The file with its tail written and n bytes of the head overwritten. */
  function Mixed(was: seq<Byte>, next: seq<Byte>, n: nat): (c: seq<Byte>)
    requires n <= HeadLength(was, next)
    ensures |c| == if |next| > |was| then |next| else |was|
  {
    next[..n] + was[n..] + (if |next| > |was| then next[|was|..] else [])
  }

  lemma MixedIsOver(was: seq<Byte>, next: seq<Byte>, n: nat)
    requires n <= HeadLength(was, next)
    ensures Over(Mixed(was, next, 0), next[..HeadLength(was, next)], 0, n) == Mixed(was, next, n)
  {
    var head := next[..HeadLength(was, next)];
    OverHead(Mixed(was, next, 0), head, n);
    assert head[..n] == next[..n];
    assert Mixed(was, next, 0)[n..] == was[n..] + (if |next| > |was| then next[|was|..] else []);
  }

  lemma MixedEnds(was: seq<Byte>, next: seq<Byte>)
    ensures |next| >= |was| ==> Mixed(was, next, |was|) == next
    ensures |next| < |was| ==> Mixed(was, next, |next|)[..|next|] == next
    ensures |next| <= |was| ==> Mixed(was, next, 0) == was
    ensures |next| > |was| ==> Mixed(was, next, 0) == was + next[|was|..]
  {
  }

  /** What the roll-back leaves when it gets m bytes through and then cuts the
      file to the old length or not. */
  function Rolled(was: seq<Byte>, next: seq<Byte>, n: nat, m: nat, cut: bool): seq<Byte>
    requires n <= HeadLength(was, next) && m <= |was|
  {
    var c := was[..m] + Mixed(was, next, n)[m..];
    if cut then c[..|was|] else c
  }

  /** What a rewriting that fails leaves behind. */
  function LeftBehind(was: seq<Byte>, next: seq<Byte>, f: Faults): seq<Byte> {
    if TailFails(was, next, f) then if f.tailTruncate then was + next[|was|..][..f.tail.value] else was
    else
      var m := Through(f.back, |was|);
      Rolled(was, next, Through(f.head, HeadLength(was, next)), m, m == |was| && !f.backTruncate)
  }

  lemma RolledIsOld(was: seq<Byte>, next: seq<Byte>, n: nat, m: nat, cut: bool)
    requires n <= HeadLength(was, next) && m <= |was| && (cut ==> m == |was|)
    ensures Rolled(was, next, n, m, cut) == was <==>
            (|next| > |was| ==> cut) && (m < n ==> was[m..n] == next[m..n])
  {
    var c := Mixed(was, next, n);
    if m < n {
      assert c[m..n] == next[m..n];
      assert (was[..m] + c[m..])[m..n] == c[m..n];
      if was[m..n] == next[m..n] {
        assert next[m..n] + was[n..] == was[m..];
      }
    } else {
      assert c[m..|was|] == was[m..];
    }
    if |next| <= |was| && (m >= n || was[m..n] == next[m..n]) {
      assert was[..m] + c[m..] == was;
    }
  }

  /** Every content a file had so far, byte by byte, is kept in `history`. */
  class File {
    var content: seq<Byte>
    ghost var history: seq<seq<Byte>>

    method WriteAt(data: seq<Byte>, off: nat, f: Option<nat>) returns (ok: bool)
      modifies this
      ensures ok == !Fails(f, |data|)
      ensures content == Over(old(content), data, off, Through(f, |data|))
      ensures history == old(history) + Steps(old(content), data, off, Through(f, |data|))
    {
      var i := 0;
      while i < |data| && !(f.Some? && f.value == i)
        invariant 0 <= i <= Through(f, |data|)
        invariant content == Over(old(content), data, off, i)
        invariant history == old(history) + Steps(old(content), data, off, i)
      {
        OverStep(old(content), data, off, i);
        content := Put(content, off + i, data[i]);
        history := history + [content];
        i := i + 1;
      }
      ok := i == |data|;
    }

    method Truncate(n: nat, fails: bool) returns (ok: bool)
      modifies this
      ensures ok == !fails
      ensures content == if fails then old(content) else Resize(old(content), n)
      ensures history == if fails then old(history) else old(history) + [content]
    {
      ok := !fails;
      if ok {
        content := Resize(content, n);
        history := history + [content];
      }
    }

    /** The deferred function: write the old content back, then cut off the rest. */
    method RollBack(was: seq<Byte>, f: Option<nat>, truncateFails: bool)
      requires |was| <= |content|
      modifies this
      ensures var m := Through(f, |was|);
              var c := was[..m] + old(content)[m..];
              content == if m == |was| && !truncateFails then c[..|was|] else c
      ensures old(history) <= history
      ensures forall k | |old(history)| <= k < |history| :: |history[k]| >= |was|
    {
      var ok := WriteAt(was, 0, f);
      OverHead(old(content), was, Through(f, |was|));
      if ok {
        ok := Truncate(|was|, truncateFails);
      }
    }

    /** The tail first: while it is written, the old content stays in front. */
    method WriteTail(was: seq<Byte>, next: seq<Byte>, f: Faults) returns (ok: bool)
      requires content == was && |next| > |was|
      modifies this
      ensures ok == !TailFails(was, next, f)
      ensures ok ==> content == was + next[|was|..]
      ensures !ok ==> content == LeftBehind(was, next, f) && (content == was <==> Restores(was, next, f))
      ensures |history| == |old(history)| + TailSteps(was, next, f)
      ensures old(history) <= history && forall k | |old(history)| <= k < |history| :: was <= history[k]
    {
      var tail := next[|was|..];
      ok := WriteAt(tail, |was|, f.tail);
      var n := Through(f.tail, |tail|);
      forall k | 0 <= k <= n ensures was <= Over(was, tail, |was|, k) {
        OverTail(was, tail, k);
      }
      OverTail(was, tail, n);
      if !ok {
        var _ := Truncate(|was|, f.tailTruncate);
      }
    }

    /** The bytes that lie within the old length. */
    method WriteHead(was: seq<Byte>, next: seq<Byte>, f: Faults) returns (ok: bool)
      requires content == Mixed(was, next, 0)
      modifies this
      ensures ok == !Fails(f.head, HeadLength(was, next))
      ensures content == Mixed(was, next, Through(f.head, HeadLength(was, next)))
      ensures old(history) <= history
      ensures forall k | |old(history)| <= k < |history| :: |history[k]| >= |was|
    {
      var l := HeadLength(was, next);
      var n := Through(f.head, l);
      if |next| >= |was| {
        ok := WriteAt(next[..|was|], 0, f.head);
      } else {
        ok := WriteAt(next, 0, f.head);
        assert next == next[..l];
      }
      MixedIsOver(was, next, n);
      forall k | 0 <= k <= n ensures |Over(Mixed(was, next, 0), next[..l], 0, k)| >= |was| {
        MixedIsOver(was, next, k);
      }
    }

    /** The overwriting, rolled back when it fails. */
    method Overwrite(was: seq<Byte>, next: seq<Byte>, f: Faults) returns (ok: bool)
      requires content == Mixed(was, next, 0) && !TailFails(was, next, f)
      modifies this
      ensures ok == Succeeds(was, next, f)
      ensures ok ==> content == next
      ensures !ok ==> content == LeftBehind(was, next, f) && (content == was <==> Restores(was, next, f))
      ensures old(history) <= history
      ensures forall k | |old(history)| <= k < |history| :: |history[k]| >= |was| || history[k] == next
    {
      ok := WriteHead(was, next, f);
      MixedEnds(was, next);
      if ok && |next| < |was| {
        ok := Truncate(|next|, f.truncate);
      }
      if !ok {
        var n, m := Through(f.head, HeadLength(was, next)), Through(f.back, |was|);
        RollBack(was, f.back, f.backTruncate);
        RolledIsOld(was, next, n, m, m == |was| && !f.backTruncate);
      }
    }

    /** The read, the caller's function on what was read, and the rewriting. `mark`
        is the moment when the head is first touched. */
    method Transform(t: seq<Byte> -> Option<seq<Byte>>, f: Faults) returns (ok: bool, ghost mark: nat)
      modifies this
      ensures var r := t(old(content));
              && (ok <==> !f.read && r.Some? && Succeeds(old(content), r.value, f))
              && (ok ==> content == r.value)
              && (!f.read && r.Some? && f.tail.None? && f.head.None? && !f.truncate ==> ok)
              && (f.read || r.None? ==> content == old(content) && history == old(history))
              && (!ok && !f.read && r.Some? ==> content == LeftBehind(old(content), r.value, f))
              && (!ok && !f.read && r.Some? ==> (content == old(content) <==> Restores(old(content), r.value, f)))
      ensures |old(history)| <= mark <= |history| && old(history) <= history
      ensures forall k | |old(history)| <= k < mark :: old(content) <= history[k]
      ensures mark < |history| ==> t(old(content)).Some? &&
                                   mark == |old(history)| + TailSteps(old(content), t(old(content)).value, f)
      ensures forall k | |old(history)| <= k < |history| ::
                |history[k]| >= |old(content)| || Some(history[k]) == t(old(content))
    {
      var was := content;
      mark := |history|;
      if f.read {
        return false, mark;
      }
      var r := t(was);
      if r.None? {
        return false, mark;
      }
      var next := r.value;
      MixedEnds(was, next);
      if |next| > |was| {
        ok := WriteTail(was, next, f);
        mark := |history|;
        if !ok {
          return;
        }
      }
      ok := Overwrite(was, next, f);
    }
  }

  /** A rewriting fails if and only if one of its calls does: the write of the tail or of the
      head stops within its bytes, or the truncation that makes the file shorter fails. */
  lemma FailsExactly(was: seq<Byte>, next: seq<Byte>, f: Faults)
    ensures !Succeeds(was, next, f) <==>
            || (f.tail.Some? && |was| + f.tail.value < |next|)
            || (f.head.Some? && f.head.value < |was| && f.head.value < |next|)
            || (f.truncate && |next| < |was|)
  {
  }

  /** When the calls that clean up succeed, an error leaves the old content. */
  lemma CleanupRestores(was: seq<Byte>, next: seq<Byte>, f: Faults)
    requires !f.tailTruncate && !f.backTruncate && !Fails(f.back, |was|)
    ensures Restores(was, next, f)
  {
    assert Through(f.back, |was|) == |was|;
  }

  /** A write that stops after one byte and a roll-back that fails at once leave neither the old
      content nor the new one. */
  lemma NeitherContent(was: seq<Byte>, next: seq<Byte>, f: Faults)
    requires was == [1, 2] && next == [3, 4]
    requires f == Faults(false, None, false, Some(1), false, Some(0), false)
    ensures !Succeeds(was, next, f) && LeftBehind(was, next, f) == [3, 2]
  {
    assert HeadLength(was, next) == 2 && Through(f.head, 2) == 1 && Through(f.back, 2) == 0;
    assert next[..1] == [3] && was[1..] == [2];
    assert Mixed(was, next, 1) == [3, 2];
    assert was[..0] + [3, 2][0..] == [3, 2];
  }
}
