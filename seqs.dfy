/** Sequence helpers shared by the protocol model and the JSON writer. */
module Seqs {

  /** The element-wise image of `s` under `f`. */
  function MapSeq<A, B>(f: A -> B, s: seq<A>): (r: seq<B>)
    ensures |r| == |s|
    ensures forall i :: 0 <= i < |s| ==> r[i] == f(s[i])
  {
    seq(|s|, i requires 0 <= i < |s| => f(s[i]))
  }

  /** Extending the prefix by one element extends its image by that element's image. */
  lemma MapSeqPrefix<A, B>(f: A -> B, s: seq<A>, i: nat)
    requires i < |s|
    ensures MapSeq(f, s[..i + 1]) == MapSeq(f, s[..i]) + [f(s[i])]
  {
  }

  /** Removing the element at `j` removes one copy of it from the multiset. */
  lemma RemoveAt<A>(b: seq<A>, j: nat)
    requires j < |b|
    ensures multiset(b) == multiset(b[..j] + b[j + 1..]) + multiset{b[j]}
  {
    assert b == b[..j] + [b[j]] + b[j + 1..];
  }

  lemma MultisetCancel<A>(m1: multiset<A>, m2: multiset<A>, x: A)
    requires m1 + multiset{x} == m2 + multiset{x}
    ensures m1 == m2
  {
    forall y ensures m1[y] == m2[y] {
      assert (m1 + multiset{x})[y] == (m2 + multiset{x})[y];
    }
  }

  lemma MapRemoveAt<A, B>(f: A -> B, b: seq<A>, j: nat)
    requires j < |b|
    ensures multiset(MapSeq(f, b)) == multiset(MapSeq(f, b[..j] + b[j + 1..])) + multiset{f(b[j])}
  {
    RemoveAt(MapSeq(f, b), j);
    assert MapSeq(f, b)[..j] + MapSeq(f, b)[j + 1..] == MapSeq(f, b[..j] + b[j + 1..]);
  }

  /** Taking the first element of `a` and a matching element of `b` out of two permutations
      of each other leaves two permutations of each other. */
  lemma PermutationWithout<A>(a: seq<A>, b: seq<A>, j: nat)
    requires multiset(a) == multiset(b)
    requires |a| > 0 && j < |b| && b[j] == a[0]
    ensures multiset(a[1..]) == multiset(b[..j] + b[j + 1..])
  {
    RemoveAt(b, j);
    RemoveAt(a, 0);
    assert a[..0] + a[1..] == a[1..];
    MultisetCancel(multiset(a[1..]), multiset(b[..j] + b[j + 1..]), a[0]);
  }

  /** The image of a non-empty sequence is the image of its tail plus the first element's image. */
  lemma MapFirst<A, B>(f: A -> B, a: seq<A>)
    requires |a| > 0
    ensures multiset(MapSeq(f, a)) == multiset(MapSeq(f, a[1..])) + multiset{f(a[0])}
  {
    assert MapSeq(f, a) == [f(a[0])] + MapSeq(f, a[1..]);
  }

  /** Mapping a permutation gives a permutation: the image's multiset depends only on the input's multiset. */
  lemma {:induction false} MapPermutation<A, B>(f: A -> B, a: seq<A>, b: seq<A>)
    requires multiset(a) == multiset(b)
    ensures multiset(MapSeq(f, a)) == multiset(MapSeq(f, b))
    decreases |a|
  {
    if |a| == 0 {
      assert |multiset(b)| == 0;
      assert b == [];
    } else {
      assert a[0] in multiset(b);
      var j :| 0 <= j < |b| && b[j] == a[0];
      var rest := b[..j] + b[j + 1..];
      PermutationWithout(a, b, j);
      MapPermutation(f, a[1..], rest);
      MapFirst(f, a);
      MapRemoveAt(f, b, j);
    }
  }

  /** The parts separated by `sep`: Java's `String.join`, and what the JSON writers emit between brackets. */
  function Join(parts: seq<string>, sep: string): string
  {
    if |parts| == 0 then ""
    else if |parts| == 1 then parts[0]
    else Join(parts[..|parts| - 1], sep) + sep + parts[|parts| - 1]
  }

  /** Appending one more part after at least one adds the separator and the part. */
  lemma JoinSnoc(parts: seq<string>, p: string, sep: string)
    requires |parts| >= 1
    ensures Join(parts + [p], sep) == Join(parts, sep) + sep + p
  {
    assert (parts + [p])[..|parts|] == parts;
  }

  /** The joined image of a one-element prefix is that element's image. */
  lemma JoinMapFirst<A>(f: A -> string, s: seq<A>, sep: string)
    requires |s| >= 1
    ensures Join(MapSeq(f, s[..1]), sep) == f(s[0])
  {
    assert s[..1] == [s[0]];
  }

  /** The joined image of a longer prefix adds a separator and the next element's image. */
  lemma JoinMapStep<A>(f: A -> string, s: seq<A>, i: nat, sep: string)
    requires 0 < i < |s|
    ensures Join(MapSeq(f, s[..i + 1]), sep) == Join(MapSeq(f, s[..i]), sep) + sep + f(s[i])
  {
    MapSeqPrefix(f, s, i);
    JoinSnoc(MapSeq(f, s[..i]), f(s[i]), sep);
  }

  /** Concatenation is associative. */
  lemma ConcatAssociative<A>(a: seq<A>, b: seq<A>, c: seq<A>)
    ensures a + b + c == a + (b + c)
  {
  }

  /** Splitting at every occurrence of `sep`; always at least one field. */
  function Split(s: string, sep: char): (r: seq<string>)
    ensures |r| >= 1
  {
    if |s| == 0 then [""]
    else
      var init := Split(s[..|s| - 1], sep);
      if s[|s| - 1] == sep then init + [""]
      else init[..|init| - 1] + [init[|init| - 1] + [s[|s| - 1]]]
  }

  lemma {:induction false} SplitWithoutSeparator(t: string, sep: char)
    requires sep !in t
    ensures Split(t, sep) == [t]
    decreases |t|
  {
    if |t| > 0 {
      assert t[..|t| - 1] + [t[|t| - 1]] == t;
      SplitWithoutSeparator(t[..|t| - 1], sep);
    }
  }

  lemma {:induction false} SplitAppend(a: string, t: string, sep: char)
    requires sep !in t
    ensures Split(a + [sep] + t, sep) == Split(a, sep) + [t]
    decreases |t|
  {
    var s := a + [sep] + t;
    if |t| == 0 {
      assert s[..|s| - 1] == a;
    } else {
      var t' := t[..|t| - 1];
      assert s[..|s| - 1] == a + [sep] + t';
      assert t' + [t[|t| - 1]] == t;
      SplitAppend(a, t', sep);
    }
  }

  /** Split undoes Join when no part contains the separator. */
  lemma {:induction false} SplitJoin(parts: seq<string>, sep: char)
    requires |parts| >= 1
    requires forall i :: 0 <= i < |parts| ==> sep !in parts[i]
    ensures Split(Join(parts, [sep]), sep) == parts
    decreases |parts|
  {
    if |parts| == 1 {
      SplitWithoutSeparator(parts[0], sep);
    } else {
      var init := parts[..|parts| - 1];
      SplitJoin(init, sep);
      SplitAppend(Join(init, [sep]), parts[|parts| - 1], sep);
      assert init + [parts[|parts| - 1]] == parts;
    }
  }

  /** Join puts exactly one separator between consecutive parts and none elsewhere. */
  lemma {:induction false} JoinSeparatorCount(parts: seq<string>, sep: char)
    requires |parts| >= 1
    requires forall i :: 0 <= i < |parts| ==> sep !in parts[i]
    ensures multiset(Join(parts, [sep]))[sep] == |parts| - 1
    decreases |parts|
  {
    if |parts| == 1 {
      assert multiset(parts[0])[sep] == 0;
    } else {
      var init := parts[..|parts| - 1];
      JoinSeparatorCount(init, sep);
      var last := parts[|parts| - 1];
      assert multiset(last)[sep] == 0;
      assert multiset(Join(parts, [sep])) == multiset(Join(init, [sep])) + multiset([sep]) + multiset(last);
    }
  }
}
