/** Go slices of strings: a window on a backing array that other slices may share. */
module GoSlices {
  /** `len` elements from `off`; `append` may write up to `cap` elements from `off` in place. */
  datatype Slice = Slice(arr: array<string>, off: nat, len: nat, cap: nat)
  {
    ghost predicate Valid() {
      len <= cap && off + cap <= arr.Length
    }

    /** `s[lo:hi]` with `hi` at most the length. */
    function Sub(lo: nat, hi: nat): (s: Slice)
      requires Valid() && lo <= hi <= len
      ensures s.Valid()
    {
      Slice(arr, off + lo, hi - lo, cap - lo)
    }

    ghost function Contents(): seq<string>
      requires Valid()
      reads arr
    {
      arr[off..off + len]
    }
  }

  /** A slice of its own array, with no room to spare: what a literal or `strings.Split` makes. */
  method FromLines(lines: seq<string>) returns (s: Slice)
    ensures s.Valid() && fresh(s.arr) && s.off == 0 && s.len == s.cap == s.arr.Length == |lines|
    ensures s.Contents() == lines && s.arr[..] == lines
  {
    var arr := new string[|lines|](i requires 0 <= i < |lines| => lines[i]);
    s := Slice(arr, 0, |lines|, |lines|);
  }

  /** Moves the elements of a slice, as if all at once, to a place in an array that may be its own. */
  method CopyInto(dst: array<string>, at: nat, xs: Slice)
    requires xs.Valid() && at + xs.len <= dst.Length
    modifies dst
    ensures dst[..] == old(dst[..at]) + old(xs.Contents()) + old(dst[at + xs.len..])
  {
    ghost var was, added := dst[..], xs.Contents();
    forall i | 0 <= i < xs.len {
      dst[at + i] := xs.arr[xs.off + i];
    }
    assert dst[at..at + xs.len] == added;
    assert dst[..at] == was[..at] && dst[at + xs.len..] == was[at + xs.len..];
    assert dst[..] == dst[..at] + dst[at..at + xs.len] + dst[at + xs.len..];
  }

  /** A larger array of its own for the elements of two slices. */
  method Together(s: Slice, xs: Slice, cap: nat) returns (arr: array<string>)
    requires s.Valid() && xs.Valid() && s.len + xs.len <= cap
    ensures fresh(arr) && arr.Length == cap && arr[..s.len + xs.len] == s.Contents() + xs.Contents()
  {
    arr := new string[cap](_ => "");
    CopyInto(arr, 0, s);
    CopyInto(arr, s.len, xs);
    assert arr[..s.len] == s.Contents();
  }

  lemma Window(was: seq<string>, off: nat, from: nat, added: seq<string>)
    requires off <= from && from + |added| <= |was|
    ensures (was[..from] + added + was[from + |added|..])[off..from + |added|] == was[off..from] + added
  {
  }

  /**
   `append(s, xs...)`. With capacity to spare the elements are moved, as if all at once, into the array behind
   `s`, whoever else looks at it; otherwise everything is copied to a new array of some larger capacity.
   */
  method Append(s: Slice, xs: Slice) returns (r: Slice)
    requires s.Valid() && xs.Valid()
    modifies s.arr
    ensures r.Valid() && r.len == s.len + xs.len
    ensures r.Contents() == old(s.Contents()) + old(xs.Contents())
    ensures r.len <= s.cap ==> r == Slice(s.arr, s.off, r.len, s.cap)
    ensures r.len <= s.cap ==>
              s.arr[..] == old(s.arr[..s.off + s.len]) + old(xs.Contents()) + old(s.arr[s.off + r.len..])
    ensures r.len > s.cap ==> fresh(r.arr) && s.arr[..] == old(s.arr[..])
  {
    var n := s.len + xs.len;
    if n <= s.cap {
      Window(s.arr[..], s.off, s.off + s.len, xs.Contents());
      CopyInto(s.arr, s.off + s.len, xs);
      r := Slice(s.arr, s.off, n, s.cap);
      assert r.Contents() == s.arr[..][s.off..s.off + n];
    } else {
      var cap: nat :| n <= cap;
      var arr := Together(s, xs, cap);
      r := Slice(arr, 0, n, cap);
    }
  }
}
