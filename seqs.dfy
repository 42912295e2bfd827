/** `Array.prototype.filter` and the flattening/chunking of rows of cells. */
module Seqs {
  import opened Wrappers

  /** `s.filter(p)`: the elements of `s` satisfying `p`, in their order in `s`. */
  function Filter<T>(s: seq<T>, p: T -> bool): (r: seq<T>)
    ensures |r| <= |s|
    ensures forall i :: 0 <= i < |r| ==> p(r[i])
  {
    if s == [] then []
    else Filter(s[..|s| - 1], p) + (if p(s[|s| - 1]) then [s[|s| - 1]] else [])
  }

  /** `s.flatMap(f)`: the sequences `f(x)` for the elements `x` of `s`, concatenated in order. */
  function FlatMap<T, U>(s: seq<T>, f: T -> seq<U>): seq<U>
  {
    if s == [] then [] else FlatMap(s[..|s| - 1], f) + f(s[|s| - 1])
  }

  /** `flatMap` of one element is its image. */
  lemma FlatMapSingle<T, U>(x: T, f: T -> seq<U>)
    ensures FlatMap([x], f) == f(x)
  {
    assert [x][..0] == [];
  }

  /** `flatMap` distributes over concatenation. */
  lemma {:induction false} FlatMapAppend<T, U>(a: seq<T>, b: seq<T>, f: T -> seq<U>)
    ensures FlatMap(a + b, f) == FlatMap(a, f) + FlatMap(b, f)
    decreases |b|
  {
    if b == [] {
      assert a + b == a;
    } else {
      var b' := b[..|b| - 1];
      assert (a + b)[..|a + b| - 1] == a + b';
      assert (a + b)[|a + b| - 1] == b[|b| - 1];
      FlatMapAppend(a, b', f);
    }
  }

  /** Concatenation is associative; stated for any element type so that no element is inspected. */
  lemma AppendAssoc<T>(a: seq<T>, b: seq<T>, c: seq<T>)
    ensures (a + b) + c == a + (b + c)
  {
  }

  /**
   * `lead` copies of `pad`, then `item(1)` .. `item(n)`, then `trail` copies
   * of `pad`: the cells of a month laid out after its first weekday.
   */
  function Framed<T>(pad: T, lead: nat, n: nat, item: nat -> T, trail: nat): (r: seq<T>)
    ensures |r| == lead + n + trail
  {
    seq(lead, _ => pad) + seq(n, i requires 0 <= i => item(i + 1)) + seq(trail, _ => pad)
  }

  /** Where the padding and the items of a framed sequence are. */
  lemma FramedAt<T>(pad: T, lead: nat, n: nat, item: nat -> T, trail: nat)
    ensures var r := Framed(pad, lead, n, item, trail);
      forall j :: 0 <= j < |r| ==> r[j] == if lead <= j < lead + n then item(j - lead + 1) else pad
  {
    var a := seq(lead, _ => pad);
    var b := seq(n, i requires 0 <= i => item(i + 1));
    var c := seq(trail, _ => pad);
    var r := a + b + c;
    assert r == Framed(pad, lead, n, item, trail);
    forall j | 0 <= j < |r|
      ensures r[j] == if lead <= j < lead + n then item(j - lead + 1) else pad
    {
      if j < lead {
        assert r[j] == a[j];
      } else if j < lead + n {
        assert r[j] == b[j - lead];
      } else {
        assert r[j] == c[j - lead - n];
      }
    }
  }

  /** Dropping `a` elements and then `b` more drops `a + b`. */
  lemma DropDrop<T>(s: seq<T>, a: nat, b: nat)
    requires a + b <= |s|
    ensures s[a..][b..] == s[a + b..]
  {
  }

  /** A slice grows by one element at its end. */
  lemma SliceSnoc<T>(s: seq<T>, from: nat, i: nat)
    requires from <= i < |s|
    ensures s[from..i + 1] == s[from..i] + [s[i]]
  {
  }

  /** Filtering distributes over concatenation: it keeps the relative order of elements. */
  lemma {:induction false} FilterAppend<T>(a: seq<T>, b: seq<T>, p: T -> bool)
    ensures Filter(a + b, p) == Filter(a, p) + Filter(b, p)
    decreases |b|
  {
    if b == [] {
      assert a + b == a;
    } else {
      var b' := b[..|b| - 1];
      assert (a + b)[..|a + b| - 1] == a + b';
      FilterAppend(a, b', p);
    }
  }

  /** Filtering a single element keeps it exactly when it satisfies the predicate. */
  lemma FilterSingle<T>(x: T, p: T -> bool)
    ensures Filter([x], p) == if p(x) then [x] else []
  {
    assert [x][..0] == [];
  }

  /** Every element of the filtered sequence satisfies the predicate, and every element of `s` that does is kept. */
  lemma {:induction false} FilterAll<T>(s: seq<T>, p: T -> bool)
    ensures forall i :: 0 <= i < |Filter(s, p)| ==> p(Filter(s, p)[i])
    ensures (forall i :: 0 <= i < |s| ==> p(s[i])) ==> Filter(s, p) == s
    ensures (forall i :: 0 <= i < |s| ==> !p(s[i])) ==> Filter(s, p) == []
    decreases |s|
  {
    if s != [] {
      FilterAll(s[..|s| - 1], p);
      assert s == s[..|s| - 1] + [s[|s| - 1]];
    }
  }

  /** An element is in the filtered sequence exactly when it is in `s` and satisfies the predicate. */
  lemma {:induction false} FilterMembers<T>(s: seq<T>, p: T -> bool)
    ensures forall x :: x in Filter(s, p) <==> x in s && p(x)
    decreases |s|
  {
    if s != [] {
      var init := s[..|s| - 1];
      FilterMembers(init, p);
      assert s == init + [s[|s| - 1]];
    }
  }

  /** `s.find(p)`, by position: the index of the first element satisfying `p`, if there is one. */
  function FindIndex<T>(s: seq<T>, p: T -> bool): (r: Option<nat>)
    ensures r.Some? ==> r.value < |s| && p(s[r.value]) && forall j :: 0 <= j < r.value ==> !p(s[j])
    ensures r.None? <==> forall j :: 0 <= j < |s| ==> !p(s[j])
  {
    if s == [] then None
    else if p(s[0]) then Some(0)
    else
      match FindIndex(s[1..], p)
      case None =>
        assert forall j :: 1 <= j < |s| ==> s[j] == s[1..][j - 1];
        None
      case Some(k) =>
        assert forall j :: 1 <= j < k + 1 ==> s[j] == s[1..][j - 1];
        Some(k + 1)
  }

  /** Concatenation of all rows. */
  function Flatten<T>(rows: seq<seq<T>>): seq<T>
  {
    if rows == [] then [] else rows[0] + Flatten(rows[1..])
  }

  lemma {:induction false} FlattenSnoc<T>(rows: seq<seq<T>>, r: seq<T>)
    ensures Flatten(rows + [r]) == Flatten(rows) + r
    decreases |rows|
  {
    if rows == [] {
      assert rows + [r] == [r];
    } else {
      assert (rows + [r])[1..] == rows[1..] + [r];
      FlattenSnoc(rows[1..], r);
    }
  }

  /** `s` cut into consecutive rows of seven (the last one possibly shorter): a week per row. */
  function Weeks<T>(s: seq<T>): seq<seq<T>>
    decreases |s|
  {
    if s == [] then [] else if |s| <= 7 then [s] else [s[..7]] + Weeks(s[7..])
  }

  /** When `|s|` is a multiple of seven, cutting `s` into weeks gives full rows that spell out `s`. */
  lemma {:induction false} WeeksFull<T>(s: seq<T>)
    requires |s| % 7 == 0
    ensures forall i :: 0 <= i < |Weeks(s)| ==> |Weeks(s)[i]| == 7
    ensures Flatten(Weeks(s)) == s
    ensures |Weeks(s)| == |s| / 7
    decreases |s|
  {
    if s != [] {
      if |s| == 7 {
        assert Weeks(s) == [s];
        assert Flatten([s]) == s + Flatten<T>([]);
      } else {
        WeeksFull(s[7..]);
        assert s == s[..7] + s[7..];
      }
    }
  }

  /** Rows of exactly seven elements are what cutting their concatenation into weeks gives. */
  lemma {:induction false} WeeksOfFlatten<T>(rows: seq<seq<T>>)
    requires forall i :: 0 <= i < |rows| ==> |rows[i]| == 7
    ensures Weeks(Flatten(rows)) == rows
    ensures |Flatten(rows)| == 7 * |rows|
    decreases |rows|
  {
    if rows != [] {
      WeeksOfFlatten(rows[1..]);
      var f := Flatten(rows);
      assert f == rows[0] + Flatten(rows[1..]);
      if |rows| == 1 {
        assert Flatten(rows[1..]) == [];
        assert f == rows[0];
      } else {
        assert f[..7] == rows[0] && f[7..] == Flatten(rows[1..]);
        assert rows == [rows[0]] + rows[1..];
      }
    }
  }

  /** `[f(0), ..., f(n - 1)]`. */
  function Tabulate<T>(n: nat, f: nat -> T): (s: seq<T>)
    ensures |s| == n
    decreases n
  {
    if n == 0 then [] else Tabulate(n - 1, f) + [f(n - 1)]
  }

  /** Position `i` of a tabulation is `f(i)`. */
  lemma {:induction false} TabulateAt<T>(n: nat, f: nat -> T, i: nat)
    requires i < n
    ensures Tabulate(n, f)[i] == f(i)
    decreases n
  {
    if i < n - 1 {
      TabulateAt(n - 1, f, i);
    }
  }

  /** The position just before the first occurrence of `x` in a sequence that does not start with it. */
  lemma FirstEntry<T>(t: seq<T>, x: T) returns (i: nat)
    requires t != [] && t[0] != x && x in t
    ensures i + 1 < |t| && t[i + 1] == x
    ensures forall k :: 0 <= k <= i ==> t[k] != x
  {
    var k :| 0 <= k < |t| && t[k] == x;
    i := 0;
    while t[i + 1] != x
      invariant i < k
      invariant forall m :: 0 <= m <= i ==> t[m] != x
      decreases k - i
    {
      i := i + 1;
    }
  }
}
