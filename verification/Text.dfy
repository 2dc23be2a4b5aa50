/** Splitting at a separator, as `strings.Split` does it, and joining again. */
module Text {

  function Split<T(==)>(s: seq<T>, sep: T): (parts: seq<seq<T>>)
    ensures |parts| >= 1
  {
    if s == [] then [[]]
    else
      var rest := Split(s[1..], sep);
      if s[0] == sep then [[]] + rest else [[s[0]] + rest[0]] + rest[1..]
  }

  function Join<T>(parts: seq<seq<T>>, sep: T): seq<T>
    requires parts != []
  {
    if |parts| == 1 then parts[0] else parts[0] + [sep] + Join(parts[1..], sep)
  }

  lemma {:induction false} JoinSplit<T>(s: seq<T>, sep: T)
    ensures Join(Split(s, sep), sep) == s
  {
    if s != [] {
      var rest := Split(s[1..], sep);
      JoinSplit(s[1..], sep);
      if s[0] == sep {
        assert ([[]] + rest)[1..] == rest;
      } else {
        assert ([[s[0]] + rest[0]] + rest[1..])[1..] == rest[1..];
      }
    }
  }

  /** No part contains the separator. */
  lemma {:induction false} PartsHaveNoSeparator<T>(s: seq<T>, sep: T, i: nat)
    requires i < |Split(s, sep)|
    ensures sep !in Split(s, sep)[i]
  {
    if s != [] {
      var rest := Split(s[1..], sep);
      if s[0] == sep {
        if i > 0 {
          PartsHaveNoSeparator(s[1..], sep, i - 1);
        }
      } else {
        PartsHaveNoSeparator(s[1..], sep, i);
      }
    }
  }

  lemma {:induction false} SplitWithoutSeparator<T>(s: seq<T>, sep: T)
    requires sep !in s
    ensures Split(s, sep) == [s]
  {
    if s != [] {
      SplitWithoutSeparator(s[1..], sep);
      assert s[0] in s && [s[0]] + s[1..] == s;
    }
  }

  /** A separator cuts the parts in two. */
  lemma {:induction false} SplitAppend<T>(a: seq<T>, sep: T, b: seq<T>)
    ensures Split(a + [sep] + b, sep) == Split(a, sep) + Split(b, sep)
  {
    var s := a + [sep] + b;
    if a == [] {
      assert s[1..] == b;
    } else {
      assert s[1..] == a[1..] + [sep] + b;
      SplitAppend(a[1..], sep, b);
    }
  }

  lemma {:induction false} JoinAppend<T>(p: seq<seq<T>>, q: seq<seq<T>>, sep: T)
    requires p != [] && q != []
    ensures Join(p + q, sep) == Join(p, sep) + [sep] + Join(q, sep)
  {
    if |p| == 1 {
      assert (p + q)[1..] == q;
    } else {
      assert (p + q)[1..] == p[1..] + q;
      JoinAppend(p[1..], q, sep);
    }
  }

  /** Two parts: exactly the texts with one separator. */
  lemma SplitInTwo<T>(s: seq<T>, sep: T, a: seq<T>, b: seq<T>)
    ensures Split(s, sep) == [a, b] <==> s == a + [sep] + b && sep !in a && sep !in b
  {
    if Split(s, sep) == [a, b] {
      JoinSplit(s, sep);
      assert [a, b][1..] == [b];
      PartsHaveNoSeparator(s, sep, 0);
      PartsHaveNoSeparator(s, sep, 1);
    }
    if s == a + [sep] + b && sep !in a && sep !in b {
      SplitAppend(a, sep, b);
      SplitWithoutSeparator(a, sep);
      SplitWithoutSeparator(b, sep);
    }
  }

  predicate EndsWith<T(==)>(s: seq<T>, tail: seq<T>) {
    |tail| <= |s| && s[|s| - |tail|..] == tail
  }

  /** A text is a tail of another from a separator on, or the whole of it, exactly when its
      parts are the last parts of the other. */
  lemma TailOfParts<T>(s: seq<T>, t: seq<T>, sep: T)
    ensures s == t || EndsWith(s, [sep] + t) <==> EndsWith(Split(s, sep), Split(t, sep))
  {
    if s != t && EndsWith(s, [sep] + t) {
      var a := s[..|s| - |t| - 1];
      assert s == a + [sep] + t;
      SplitAppend(a, sep, t);
    }
    if EndsWith(Split(s, sep), Split(t, sep)) {
      var n := |Split(s, sep)| - |Split(t, sep)|;
      var p := Split(s, sep)[..n];
      assert Split(s, sep) == p + Split(t, sep);
      JoinSplit(s, sep);
      JoinSplit(t, sep);
      if n > 0 {
        JoinAppend(p, Split(t, sep), sep);
        assert s == Join(p, sep) + ([sep] + t);
      }
    }
  }

  /** `strings.IndexByte`. */
  function IndexOf<T(==)>(s: seq<T>, c: T): (i: int)
    ensures i == -1 <==> c !in s
    ensures i != -1 ==> 0 <= i < |s| && s[i] == c && c !in s[..i]
  {
    if s == [] then -1
    else if s[0] == c then 0
    else
      var i := IndexOf(s[1..], c);
      if i == -1 then -1
      else
        assert s[..i + 1] == [s[0]] + s[1..][..i];
        i + 1
  }
}
