/** The fixed-size buffer that keeps the newest bytes of the log. */
module LogRing {

  function Least(a: nat, b: nat): nat { if a <= b then a else b }

  /** The newest `n` bytes, or all of them. */
  function Newest(s: seq<char>, n: nat): seq<char> { s[|s| - Least(n, |s|)..] }

  /** Position `i` of the content, going round. */
  function Round(start: nat, i: nat, size: nat): nat { if start + i < size then start + i else start + i - size }

  /** `count` bytes from position `start` on, going round. */
  ghost function Ring(b: seq<char>, start: nat, count: nat): (r: seq<char>)
    requires count <= |b| && (start < |b| || start == 0)
    ensures |r| == count && forall i :: 0 <= i < count ==> r[i] == b[Round(start, i, |b|)]
  {
    seq(count, i requires 0 <= i < count => b[Round(start, i, |b|)])
  }

  /** Byte `j` of what was written is behind the content, going round. */
  ghost predicate WrittenBehind(b: seq<char>, b': seq<char>, end: nat, p: seq<char>) {
    && |b'| == |b| && end < |b| && |p| < |b|
    && (forall j :: 0 <= j < |b| ==> b'[Round(end, j, |b|)] == (if j < |p| then p[j] else b[Round(end, j, |b|)]))
  }

  /** The two copies of a write put its bytes behind the content. */
  lemma TwoCopies(b: seq<char>, b': seq<char>, end: nat, p: seq<char>)
    requires |b'| == |b| && end < |b| && |p| < |b|
    requires forall i :: 0 <= i < |b| ==>
      b'[i] == (if end <= i < end + |p| then p[i - end] else if i + |b| < end + |p| then p[i + |b| - end] else b[i])
    ensures WrittenBehind(b, b', end, p)
  {}

  /** A write leaves the old content, less what it ran over, and then its bytes. */
  lemma RingAppend(b: seq<char>, b': seq<char>, start: nat, count: nat, p: seq<char>, end: nat, start': nat,
                   count': nat)
    requires count <= |b| && start < |b| && WrittenBehind(b, b', end, p)
    requires end == if start + count < |b| then start + count else start + count - |b|
    requires count' == Least(count + |p|, |b|)
    requires var ahead := start + (count + |p| - count'); start' == if ahead < |b| then ahead else ahead - |b|
    ensures Ring(b', start', count') == Newest(Ring(b, start, count) + p, |b|)
  {
    var size, over := |b|, count + |p| - count';
    var r, want := Ring(b', start', count'), (Ring(b, start, count) + p)[over..];
    forall i | 0 <= i < |r| ensures r[i] == want[i] {
      var j := if over + i >= count then over + i - count else over + i + size - count;
      assert Round(start', i, size) == Round(end, j, size);
    }
  }

  lemma RemainderOnce(x: nat, n: nat)
    requires x < 2 * n
    ensures x % n == if x < n then x else x - n
  {}

  /** Copies as much of `src` as fits from position `at` on. */
  method CopyInto(dst: array<char>, at: nat, src: seq<char>) returns (n: nat)
    requires at <= dst.Length
    modifies dst
    ensures n == Least(dst.Length - at, |src|)
    ensures forall i :: 0 <= i < dst.Length ==> dst[i] == if at <= i < at + n then src[i - at] else old(dst[i])
  {
    n := 0;
    while at + n < dst.Length && n < |src|
      invariant n <= |src| && at + n <= dst.Length
      invariant forall i :: 0 <= i < dst.Length ==> dst[i] == if at <= i < at + n then src[i - at] else old(dst[i])
    {
      dst[at + n] := src[n];
      n := n + 1;
    }
  }

  class LogBuffer {
    const buf: array<char>
    const size: nat
    var start: nat
    var count: nat
    /** Everything ever written. */
    ghost var written: seq<char>

    ghost predicate InBounds()
      reads this
    {
      buf.Length == size && count <= size && (if size == 0 then start == 0 else start < size)
    }

    ghost function View(): seq<char>
      requires InBounds()
      reads this, buf
    {
      Ring(buf[..], start, count)
    }

    ghost predicate Valid()
      reads this, buf
    {
      InBounds() && View() == Newest(written, size)
    }

    constructor (size: int)
      ensures Valid() && fresh(buf) && written == [] && this.size == if size < 0 then 0 else size
    {
      this.size := if size < 0 then 0 else size;
      buf := new char[if size < 0 then 0 else size];
      start, count, written := 0, 0, [];
    }

    /** Copies up to the end of the array and the rest from its front. */
    method CopyAround(end: nat, p: seq<char>)
      requires buf.Length == size && end < size && |p| < size
      modifies buf
      ensures WrittenBehind(old(buf[..]), buf[..], end, p)
    {
      ghost var b := buf[..];
      var first := CopyInto(buf, end, p);
      var _ := CopyInto(buf, 0, p[first..]);
      TwoCopies(b, buf[..], end, p);
    }

    /** Adds fewer bytes than the buffer has room for in all. */
    method Append(p: seq<char>)
      requires InBounds() && 0 < |p| < size
      modifies this`start, this`count, buf
      ensures InBounds() && View() == Newest(old(View()) + p, size)
    {
      ghost var b := buf[..];
      var end := Wrap(start + count);
      CopyAround(end, p);
      var newStart, newCount := start, count + |p|;
      if newCount > size {
        newStart := Wrap(start + (newCount - size));
        newCount := size;
      }
      RingAppend(b, buf[..], start, count, p, end, newStart, newCount);
      hide Ring, Newest, WrittenBehind;
      start, count := newStart, newCount;
    }

    method Wrap(x: nat) returns (r: nat)
      requires x < 2 * size
      ensures r < size && r == if x < size then x else x - size
    {
      RemainderOnce(x, size);
      r := x % size;
    }

    /** Keeps the end of a write at least as long as the buffer. */
    method Overwrite(p: seq<char>)
      requires InBounds() && 0 < size <= |p|
      modifies this`start, this`count, buf
      ensures InBounds() && View() == Newest(old(View()) + p, size)
    {
      var _ := CopyInto(buf, 0, p[|p| - size..]);
      start, count := 0, size;
      assert View() == p[|p| - size..];
    }

    /** Takes everything it is given, and keeps the newest bytes in place. */
    method Write(p: seq<char>) returns (n: nat)
      requires Valid()
      modifies this, buf
      ensures Valid() && n == |p| && written == old(written) + p
    {
      n := |p|;
      NewestOfNewest(written, p, size);
      assert size == 0 ==> Newest(written + p, size) == Newest(written, size);
      assert n == 0 ==> written + p == written;
      written := written + p;
      hide Ring, Newest;
      if size == 0 || n == 0 {
        return;
      }
      if n >= size {
        Overwrite(p);
      } else {
        Append(p);
      }
    }

    /** What the buffer holds, in the order it was written. */
    method Content() returns (content: seq<char>)
      requires Valid()
      ensures content == Newest(written, size)
    {
      if count == 0 {
        return [];
      }
      var out := new char[count];
      var first := CopyInto(out, 0, buf[start..]);
      var _ := CopyInto(out, first, buf[..count - first]);
      content := out[..];
      assert content == View();
    }
  }

  /** Forgetting all but the newest bytes first loses nothing that is kept. */
  lemma NewestOfNewest(w: seq<char>, p: seq<char>, n: nat)
    ensures Newest(Newest(w, n) + p, n) == Newest(w + p, n)
  {
    var a, b := Newest(w, n) + p, w + p;
    assert b[|b| - |a|..] == a;
    var x, y := Newest(a, n), Newest(b, n);
    assert |x| == |y| && x == a[|a| - |x|..] == b[|b| - |x|..];
  }
}
