/** Strings in key order: by the first differing character, a prefix before its extensions. */
module Text {
  import opened Wrappers

  predicate Before(a: string, b: string) {
    b != [] && (a == [] || a[0] < b[0] || (a[0] == b[0] && Before(a[1..], b[1..])))
  }

  /** a and b agree up to n, where a ends first or has the smaller character. */
  predicate PrecedesAt(a: string, b: string, n: nat) {
    n <= |a| && n < |b| && a[..n] == b[..n] && (n == |a| || a[n] < b[n])
  }

  lemma {:induction false} BeforeIs(a: string, b: string)
    ensures Before(a, b) <==> exists n: nat :: PrecedesAt(a, b, n)
  {
    forall n: nat | PrecedesAt(a, b, n) ensures a == [] || a[0] <= b[0] {
      assert n > 0 ==> a[..n][0] == a[0] && b[..n][0] == b[0];
    }
    if b != [] && (a == [] || a[0] < b[0]) {
      assert PrecedesAt(a, b, 0);
    } else if a != [] && b != [] && a[0] == b[0] {
      BeforeIs(a[1..], b[1..]);
      assert a == [a[0]] + a[1..] && b == [b[0]] + b[1..];
      if Before(a[1..], b[1..]) {
        var n: nat :| PrecedesAt(a[1..], b[1..], n);
        assert a[..n + 1] == [a[0]] + a[1..][..n] && b[..n + 1] == [b[0]] + b[1..][..n];
        assert PrecedesAt(a, b, n + 1);
      }
      if n: nat :| PrecedesAt(a, b, n) {
        assert a[1..][..n - 1] == a[..n][1..] && b[1..][..n - 1] == b[..n][1..];
        assert PrecedesAt(a[1..], b[1..], n - 1);
      }
    }
  }

  lemma {:induction false} Irreflexive(a: string)
    ensures !Before(a, a)
  {
    if a != [] { Irreflexive(a[1..]); }
  }

  lemma {:induction false} Transitive(a: string, b: string, c: string)
    requires Before(a, b) && Before(b, c)
    ensures Before(a, c)
  {
    if a != [] && a[0] == b[0] == c[0] { Transitive(a[1..], b[1..], c[1..]); }
  }

  lemma {:induction false} Total(a: string, b: string)
    ensures a == b || Before(a, b) || Before(b, a)
  {
    if a != [] && b != [] && a[0] == b[0] {
      Total(a[1..], b[1..]);
      assert a == [a[0]] + a[1..] && b == [b[0]] + b[1..];
    }
  }

  /** The strings that extend p are contiguous. */
  lemma {:induction false} ExtensionsContiguous(p: string, x: string, y: string, z: string)
    requires p <= x && p <= z && Before(x, y) && Before(y, z)
    ensures p <= y
  {
    if p != [] {
      assert x[0] == p[0] == z[0];
      ExtensionsContiguous(p[1..], x[1..], y[1..], z[1..]);
      assert y == [y[0]] + y[1..] && p == [p[0]] + p[1..];
    }
  }

  /** Prefixes that tell two strings apart are ordered as the strings are. */
  lemma {:induction false} PrefixesOrdered(p: string, x: string, q: string, y: string)
    requires p <= x && q <= y && Before(x, y) && !(p <= y) && !(q <= x)
    ensures Before(p, q)
  {
    assert p != [] && q != [];
    if x[0] == y[0] {
      assert p[1..] <= x[1..] && q[1..] <= y[1..];
      assert p[1..] <= y[1..] ==> p <= y;
      assert q[1..] <= x[1..] ==> q <= x;
      PrefixesOrdered(p[1..], x[1..], q[1..], y[1..]);
    }
  }

  predicate Ascending(s: seq<string>) {
    forall i, j :: 0 <= i < j < |s| ==> Before(s[i], s[j])
  }

  /** An ascending sequence is determined by its elements. */
  lemma {:induction false} AscendingUnique(a: seq<string>, b: seq<string>)
    requires Ascending(a) && Ascending(b) && forall x :: x in a <==> x in b
    ensures a == b
  {
    assert a != [] ==> a[0] in a;
    assert b != [] ==> b[0] in b;
    if a != [] {
      FirstsAgree(a, b);
      forall x
        ensures x in a[1..] <==> x in b[1..]
      {
        TailMembers(a, x);
        TailMembers(b, x);
      }
      AscendingUnique(a[1..], b[1..]);
      assert a == [a[0]] + a[1..] && b == [b[0]] + b[1..];
    }
  }

  lemma FirstsAgree(a: seq<string>, b: seq<string>)
    requires a != [] && b != [] && Ascending(a) && Ascending(b) && forall x :: x in a <==> x in b
    ensures a[0] == b[0]
  {
    if a[0] != b[0] {
      assert a[0] in b && b[0] in a;
      Transitive(a[0], b[0], a[0]);
      Irreflexive(a[0]);
    }
  }

  lemma TailMembers(a: seq<string>, x: string)
    requires a != [] && Ascending(a)
    ensures x in a[1..] <==> x in a && x != a[0]
  {
    if x in a[1..] { Irreflexive(x); }
  }

  // ---- sorting names ----

  function Insert(s: seq<string>, x: string): seq<string> {
    if s == [] || Before(x, s[0]) then [x] + s else [s[0]] + Insert(s[1..], x)
  }

  function Sort(s: seq<string>): seq<string> {
    if s == [] then [] else Insert(Sort(s[1..]), s[0])
  }

  lemma {:induction false} InsertKeeps(s: seq<string>, x: string)
    requires Ascending(s) && x !in s
    ensures Ascending(Insert(s, x))
    ensures forall y :: y in Insert(s, x) <==> y == x || y in s
  {
    if s == [] {
    } else if Before(x, s[0]) {
      forall j | 0 < j < |s| ensures Before(x, s[j]) { Transitive(x, s[0], s[j]); }
    } else {
      Total(x, s[0]);
      InsertKeeps(s[1..], x);
      var t := Insert(s[1..], x);
      assert s == [s[0]] + s[1..];
      forall j | 0 <= j < |t| ensures Before(s[0], t[j]) { assert t[j] in t; }
    }
  }

  /** Sorting distinct names gives an ascending sequence of the same names. */
  lemma {:induction false} SortKeeps(s: seq<string>)
    requires forall i, j :: 0 <= i < j < |s| ==> s[i] != s[j]
    ensures Ascending(Sort(s))
    ensures forall y :: y in Sort(s) <==> y in s
  {
    if s != [] {
      SortKeeps(s[1..]);
      InsertKeeps(Sort(s[1..]), s[0]);
      assert s == [s[0]] + s[1..];
    }
  }

  // ---- searching ----

  /** Where `needle` first occurs. */
  function Find(s: string, needle: string): (r: Option<nat>)
    ensures r.Some? ==> r.value + |needle| <= |s|
  {
    if needle <= s then Some(0)
    else if s == "" then None
    else match Find(s[1..], needle) case None => None case Some(i) => Some(i + 1)
  }

  predicate StandsAt(s: string, needle: string, i: nat) {
    i + |needle| <= |s| && s[i..i + |needle|] == needle
  }

  /** `needle` stands at i and nowhere before. */
  ghost predicate FirstAt(s: string, needle: string, i: nat) {
    StandsAt(s, needle, i) && forall j: nat :: j < i ==> !StandsAt(s, needle, j)
  }

  lemma StandsLater(s: string, needle: string, i: nat)
    requires s != ""
    ensures StandsAt(s, needle, i + 1) <==> StandsAt(s[1..], needle, i)
    ensures StandsAt(s, needle, 0) <==> needle <= s
  {
    if i + 1 + |needle| <= |s| { assert s[i + 1..i + 1 + |needle|] == s[1..][i..i + |needle|]; }
  }

  /** The search finds the first place where `needle` stands, and fails only if it stands nowhere. */
  lemma {:induction false} FindIs(s: string, needle: string)
    ensures Find(s, needle).Some? ==> FirstAt(s, needle, Find(s, needle).value)
    ensures Find(s, needle).None? ==> forall i: nat :: !StandsAt(s, needle, i)
  {
    if needle <= s {
      assert StandsAt(s, needle, 0);
    } else if s != "" {
      FindIs(s[1..], needle);
      forall j: nat ensures StandsAt(s, needle, j) <==> j > 0 && StandsAt(s[1..], needle, j - 1) {
        StandsLater(s, needle, if j > 0 then j - 1 else 0);
      }
    }
  }

  lemma FindFirst(s: string, needle: string, i: nat)
    ensures Find(s, needle) == Some(i) <==> FirstAt(s, needle, i)
  {
    FindIs(s, needle);
    hide Find, StandsAt;
  }

  /** The first occurrence only depends on the text up to its end. */
  lemma {:induction false} FindStable(s: string, t: string, needle: string)
    requires Find(s, needle).Some? && s[..Find(s, needle).value + |needle|] <= t
    ensures Find(t, needle) == Find(s, needle)
  {
    var i := Find(s, needle).value;
    var head := s[..i + |needle|];
    if needle <= s {
      assert needle <= head;
    } else {
      assert t[..|needle|] == head[..|needle|] == s[..|needle|];
      assert s[1..][..i - 1 + |needle|] == head[1..] <= t[1..];
      FindStable(s[1..], t[1..], needle);
    }
  }

  lemma {:induction false} FindChar(w: string, c: char, rest: string)
    requires c !in w
    ensures Find(w + [c] + rest, [c]) == Some(|w|)
  {
    var s := w + [c] + rest;
    if w == "" {
      assert [c] <= s;
    } else {
      FindChar(w[1..], c, rest);
      assert s[1..] == w[1..] + [c] + rest;
      assert s[0] == w[0] && w[0] in w;
    }
  }

  lemma {:induction false} FindAbsent(w: string, c: char)
    requires c !in w
    ensures Find(w, [c]).None?
  {
    if w != "" {
      FindAbsent(w[1..], c);
      assert w[0] in w;
    }
  }

  /** Unicode White_Space. */
  predicate White(c: char) {
    || '\U{0009}' <= c <= '\U{000D}' || c == ' ' || c == '\U{0085}' || c == '\U{00A0}' || c == '\U{1680}'
    || '\U{2000}' <= c <= '\U{200A}' || c == '\U{2028}' || c == '\U{2029}' || c == '\U{202F}' || c ==
      '\U{205F}' || c == '\U{3000}'
  }
}
