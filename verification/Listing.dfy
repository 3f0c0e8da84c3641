/** Delimiter-folded listing in pages: `list_objects` of crates/ozone-s3-gw/src/backend.rs. */
module Listing {
  import opened Wrappers
  import opened Layout
  import opened Text
  import opened Om

  datatype Page = Page(truncated: bool, next: string, contents: seq<KeyListing>, common: seq<string>)

  /** What is listed: one bucket's keys under a prefix, folded at a delimiter. */
  datatype Query = Query(keys: map<KeyName, KeyInfo>, volume: string, bucket: string, prefix: string, delimiter: string)

  const I32_MAX: nat := 0x7FFF_FFFF

  // ---- folding one key ----

  function Folded(q: Query, key: string): Option<string> {
    if q.delimiter == "" then None
    else
      var rest := if q.prefix <= key then key[|q.prefix|..] else key;
      match Find(rest, q.delimiter)
      case None => None
      case Some(i) => Some(q.prefix + rest[..i + |q.delimiter|])
  }

  /** The key is cut just after the first delimiter that stands past the prefix. */
  ghost predicate FoldsAt(q: Query, key: string, p: string)
    requires q.prefix <= key
  {
    && q.delimiter != ""
    && exists i: nat ::
         && FirstAt(key[|q.prefix|..], q.delimiter, i)
         && p == key[..|q.prefix| + i + |q.delimiter|]
  }

  lemma FoldedIs(q: Query, key: string, p: string)
    requires q.prefix <= key
    ensures Folded(q, key) == Some(p) <==> FoldsAt(q, key, p)
  {
    var rest := key[|q.prefix|..];
    assert key == q.prefix + rest;
    FindIs(rest, q.delimiter);
    hide StandsAt;
    forall i: nat | FirstAt(rest, q.delimiter, i)
      ensures Find(rest, q.delimiter) == Some(i)
        && key[..|q.prefix| + i + |q.delimiter|] == q.prefix + rest[..i + |q.delimiter|]
    {
      FindFirst(rest, q.delimiter, i);
    }
  }

  /** No delimiter stands past the prefix. */
  ghost predicate Whole(q: Query, key: string)
    requires q.prefix <= key
  {
    q.delimiter == "" || forall i: nat :: !StandsAt(key[|q.prefix|..], q.delimiter, i)
  }

  lemma PlainIsWhole(q: Query, key: string)
    requires q.prefix <= key
    ensures Folded(q, key).None? <==> Whole(q, key)
  {
    FindIs(key[|q.prefix|..], q.delimiter);
    hide StandsAt, Find;
  }

  lemma FoldIsPrefix(q: Query, key: string)
    requires q.prefix <= key && Folded(q, key).Some?
    ensures Folded(q, key).value <= key
  {
    var n := |q.prefix|;
    assert key == q.prefix + key[n..];
  }

  /** A key folds into p exactly when it extends p, once some key folds into p. */
  lemma FoldedIffExtends(q: Query, key: string, p: string, other: string)
    requires q.prefix <= key && q.prefix <= other && Folded(q, key) == Some(p)
    ensures p <= key && (Folded(q, other) == Some(p) <==> p <= other)
  {
    var n := |q.prefix|;
    var i := Find(key[n..], q.delimiter).value;
    assert p[n..] == key[n..][..i + |q.delimiter|];
    assert key == q.prefix + key[n..] && other == q.prefix + other[n..];
    FoldIsPrefix(q, key);
    if p <= other {
      assert p[n..] <= other[n..];
      FindStable(key[n..], other[n..], q.delimiter);
      assert other[n..][..i + |q.delimiter|] == p[n..];
    } else if Folded(q, other).Some? {
      FoldIsPrefix(q, other);
    }
  }

  // ---- folding a list of names ----

  function Plain(q: Query, names: seq<string>): seq<string> {
    if names == [] then []
    else
      var n := |names| - 1;
      Plain(q, names[..n]) + (if Folded(q, names[n]).None? then [names[n]] else [])
  }

  function Groups(q: Query, names: seq<string>): seq<string> {
    if names == [] then []
    else
      var n := |names| - 1;
      var before := Groups(q, names[..n]);
      match Folded(q, names[n])
      case Some(p) => if p in before then before else before + [p]
      case None => before
  }

  /** Plain keeps, in order, the names that do not fold. */
  lemma {:induction false} PlainIs(q: Query, names: seq<string>)
    requires Ascending(names)
    ensures forall k :: k in Plain(q, names) <==> k in names && Folded(q, k).None?
    ensures Ascending(Plain(q, names))
  {
    if names != [] {
      var n := |names| - 1;
      PlainIs(q, names[..n]);
      assert names == names[..n] + [names[n]];
      var p := Plain(q, names[..n]);
      forall i | 0 <= i < |p| ensures Before(p[i], names[n]) { assert p[i] in names[..n]; }
    }
  }

  ghost predicate FoldsInto(q: Query, names: seq<string>, p: string) {
    exists k :: k in names && Folded(q, k) == Some(p)
  }

  ghost predicate Listable(q: Query, names: seq<string>) {
    Ascending(names) && forall k :: k in names ==> q.prefix <= k
  }

  /** The groups are the distinct folds, ascending: keys of one fold are contiguous. */
  lemma {:induction false} GroupsAre(q: Query, names: seq<string>)
    requires Listable(q, names)
    ensures forall p :: p in Groups(q, names) <==> FoldsInto(q, names, p)
    ensures Ascending(Groups(q, names))
  {
    if names != [] {
      var n := |names| - 1;
      var init, last := names[..n], names[n];
      assert Listable(q, init) by { assert forall k :: k in init ==> k in names; }
      GroupsAre(q, init);
      assert names == init + [last];
      forall p ensures FoldsInto(q, names, p) <==> FoldsInto(q, init, p) || Folded(q, last) == Some(p) {
        assert last in names;
      }
      var g := Groups(q, init);
      if Folded(q, last).Some? && Folded(q, last).value !in g {
        forall i | 0 <= i < |g| ensures Before(g[i], Folded(q, last).value) {
          assert g[i] in g;
          GroupBefore(q, init, last, g[i]);
        }
      }
    }
  }

  /** An earlier group comes before the new group that a later name opens. */
  lemma GroupBefore(q: Query, init: seq<string>, last: string, p: string)
    requires Listable(q, init + [last]) && FoldsInto(q, init, p)
    requires Folded(q, last).Some? && !FoldsInto(q, init, Folded(q, last).value)
    ensures Before(p, Folded(q, last).value)
  {
    var k :| k in init && Folded(q, k) == Some(p);
    var all := init + [last];
    assert last == all[|init|] && last in all && k in all;
    FoldedIffExtends(q, k, p, last);
    FoldedIffExtends(q, last, Folded(q, last).value, k);
    PrefixesOrdered(p, k, Folded(q, last).value, last);
  }

  // ---- pages ----

  ghost function Names(q: Query, token: string): (r: seq<string>)
    ensures Listable(q, r)
    ensures forall k :: k in r <==> KeyName(q.volume, q.bucket, k) in q.keys && q.prefix <= k && Before(token, k)
  {
    Sorted(Matching(q.keys, q.volume, q.bucket, q.prefix, token))
  }

  /** The page covers exactly the first n names after the token. */
  ghost predicate PageCovers(q: Query, max: nat, names: seq<string>, n: nat, page: Page)
    requires forall k :: k in names ==> KeyName(q.volume, q.bucket, k) in q.keys
  {
    && n <= |names|
    && (forall k :: k in Plain(q, names[..n]) ==> k in names)
    && page.contents == ListingsOf(q.keys, q.volume, q.bucket, Plain(q, names[..n]))
    && page.common == Groups(q, names[..n])
    && |page.contents| + |page.common| <= max
    && (if page.truncated then
          && 0 < n < |names| && page.next == names[n - 1]
          && |page.contents| + |page.common| == max
          && Opens(q, names[..n], names[n])
        else n == |names| && page.next == "")
  }

  /** The name is a new entry: a plain key, or the first of its group. */
  predicate Opens(q: Query, before: seq<string>, name: string) {
    match Folded(q, name)
    case None => true
    case Some(p) => p !in Groups(q, before)
  }

  /** What `list_objects` answers for a token. */
  ghost predicate IsPage(q: Query, max: nat, token: string, page: Page) {
    if max == 0 then page == Page(false, "", [], [])
    else exists n :: PageCovers(q, max, Names(q, token), n, page)
  }

  /** After the j-th name come the names that follow it. */
  lemma NamesAfter(q: Query, token: string, j: nat)
    requires j < |Names(q, token)|
    ensures Names(q, Names(q, token)[j]) == Names(q, token)[j + 1..]
  {
    var m := Names(q, token);
    var rest := m[j + 1..];
    forall k ensures k in Names(q, m[j]) <==> k in rest {
      if k in Names(q, m[j]) {
        assert Before(token, m[j]) by { assert m[j] in m; }
        Transitive(token, m[j], k);
        var i :| 0 <= i < |m| && m[i] == k;
        NotAfter(m, i, j);
        assert k == rest[i - j - 1];
      }
      if k in rest {
        var i :| 0 <= i < |rest| && rest[i] == k;
        assert m[j + 1 + i] == k && k in m;
      }
    }
    AscendingUnique(Names(q, m[j]), rest);
  }

  lemma NotAfter(m: seq<string>, i: nat, j: nat)
    requires Ascending(m) && i < |m| && j < |m| && Before(m[j], m[i])
    ensures i > j
  {
    if i < j {
      Transitive(m[i], m[j], m[i]);
    }
    Irreflexive(m[i]);
  }

  // ---- the scan that fills one page ----

  /** The page so far holds the entries of the first n names. */
  ghost predicate Covered(q: Query, max: nat, names: seq<string>, n: nat,
      contents: seq<KeyListing>, common: seq<string>)
    requires forall k :: k in names ==> KeyName(q.volume, q.bucket, k) in q.keys
  {
    && n <= |names|
    && (forall k :: k in Plain(q, names[..n]) ==> k in names)
    && contents == ListingsOf(q.keys, q.volume, q.bucket, Plain(q, names[..n]))
    && common == Groups(q, names[..n])
    && |contents| + |common| <= max
  }

  function ListingOf(q: Query, name: string): KeyListing
    requires KeyName(q.volume, q.bucket, name) in q.keys
  {
    var info := q.keys[KeyName(q.volume, q.bucket, name)];
    KeyListing(name, info.size, info.etag)
  }

  lemma CoverNext(q: Query, max: nat, names: seq<string>, n: nat, contents: seq<KeyListing>, common: seq<string>)
    requires forall k :: k in names ==> KeyName(q.volume, q.bucket, k) in q.keys
    requires n < |names| && Covered(q, max, names, n, contents, common)
    ensures !Opens(q, names[..n], names[n]) ==> Covered(q, max, names, n + 1, contents, common)
    ensures |contents| + |common| < max && Folded(q, names[n]).None? ==>
      Covered(q, max, names, n + 1, contents + [ListingOf(q, names[n])], common)
    ensures |contents| + |common| < max && Folded(q, names[n]).Some? && Opens(q, names[..n], names[n]) ==>
      Covered(q, max, names, n + 1, contents, common + [Folded(q, names[n]).value])
  {
    assert names[..n + 1][..n] == names[..n];
    hide Folded;
  }

  /** The batch holds the names from the n-th on. */
  ghost predicate Continues(q: Query, names: seq<string>, n: nat, batch: seq<KeyListing>)
    requires forall k :: k in names ==> KeyName(q.volume, q.bucket, k) in q.keys
  {
    n + |batch| <= |names| && forall i :: 0 <= i < |batch| ==> batch[i] == ListingOf(q, names[n + i])
  }

  lemma SuffixContinues(q: Query, names: seq<string>, n: nat, count: nat)
    requires n + count <= |names| && forall k :: k in names ==> KeyName(q.volume, q.bucket, k) in q.keys
    ensures Continues(q, names, n, ListingsOf(q.keys, q.volume, q.bucket, names[n..][..count]))
  {
    forall i | 0 <= i < count ensures names[n..][..count][i] == names[n + i] {}
  }

  lemma NamesFrom(q: Query, token: string, n: nat, start: string)
    requires n <= |Names(q, token)| && start == (if n == 0 then token else Names(q, token)[n - 1])
    ensures Names(q, start) == Names(q, token)[n..]
  {
    hide *;
    if n > 0 { NamesAfter(q, token, n - 1); }
  }

  /** One batch of keys after the n names already seen. */
  method NextBatch(om: CompliantOm, q: Query, start: string, max: nat, ghost token: string, ghost n: nat)
      returns (batch: seq<KeyListing>)
    requires q.keys == om.keys && max > 0
    requires n <= |Names(q, token)| && start == (if n == 0 then token else Names(q, token)[n - 1])
    ensures |batch| == Min(|Names(q, token)| - n, max) && Continues(q, Names(q, token), n, batch)
  {
    NamesFrom(q, token, n, start);
    batch := om.ListKeys(q.volume, q.bucket, q.prefix, start, max);
    assert batch == ListingsOf(q.keys, q.volume, q.bucket, Names(q, start)[..Min(|Names(q, start)|, max)]);
    hide *;
    SuffixContinues(q, Names(q, token), n, Min(|Names(q, token)| - n, max));
  }

  /** Fold one batch into the page; stop at the first entry beyond a full page. */
  method ScanBatch(q: Query, max: nat, batch: seq<KeyListing>, contents0: seq<KeyListing>,
      common0: seq<string>, resume0: string,
                   ghost names: seq<string>, ghost n0: nat)
    returns (contents: seq<KeyListing>, common: seq<string>, resume: string, truncated: bool, ghost n: nat)
    requires forall k :: k in names ==> KeyName(q.volume, q.bucket, k) in q.keys
    requires Continues(q, names, n0, batch) && Covered(q, max, names, n0, contents0, common0)
      && (n0 > 0 ==> resume0 == names[n0 - 1])
    ensures n <= |names| && Covered(q, max, names, n, contents, common) && (n > 0 ==> resume == names[n - 1])
    ensures !truncated ==> n == n0 + |batch|
    ensures truncated ==> n < |names| && |contents| + |common| == max && Opens(q, names[..n], names[n])
  {
    hide Folded, Covered, Plain, Groups;
    n := n0;
    contents, common, resume, truncated := contents0, common0, resume0, false;
    var count := |contents| + |common|;
    for i := 0 to |batch|
      invariant !truncated && count == |contents| + |common| && Covered(q, max, names, n, contents, common)
      invariant n == n0 + i <= |names|
      invariant n > 0 ==> resume == names[n - 1]
    {
      var k := batch[i];
      assert k == ListingOf(q, names[n + 0]);
      CoverNext(q, max, names, n, contents, common);
      CoveredMeans(q, max, names, n, contents, common);
      var folded := Folded(q, k.key);
      if folded.Some? && folded.value in common {
        resume := k.key;
      } else if count == max {
        truncated := true;
        return;
      } else if folded.Some? {
        resume := k.key;
        common := common + [folded.value];
        count := count + 1;
      } else {
        resume := k.key;
        contents := contents + [k];
        count := count + 1;
      }
      n := n + 1;
    }
  }

  method ListObjects(om: CompliantOm, volume: string, bucket: string, prefix: string,
      delimiter: string, max: nat, token: string)
    returns (page: Page)
    requires max <= I32_MAX
    ensures IsPage(Query(om.keys, volume, bucket, prefix, delimiter), max, token, page)
  {
    hide Names, Folded, Covered, Plain, Groups, Continues;
    if max == 0 {
      return Page(false, "", [], []);
    }
    var q := Query(om.keys, volume, bucket, prefix, delimiter);
    ghost var names, n := Names(q, token), 0;
    var start, resume, truncated := token, "", false;
    var contents: seq<KeyListing>, common: seq<string> := [], [];
    CoverNone(q, max, names);
    while true
      invariant !truncated && Covered(q, max, names, n, contents, common)
      invariant n <= |names| && start == (if n == 0 then token else names[n - 1])
      invariant n > 0 ==> resume == names[n - 1]
      decreases |names| - n
    {
      var batch := NextBatch(om, q, start, max, token, n);
      if batch == [] {
        break;
      }
      LastContinues(q, names, n, batch);
      start := batch[|batch| - 1].key;
      contents, common, resume, truncated, n := ScanBatch(q, max, batch, contents, common, resume, names, n);
      if truncated || |batch| < max {
        break;
      }
    }
    CoveredMeans(q, max, names, n, contents, common);
    page := Page(truncated, if truncated then resume else "", contents, common);
    FirstOpens(q, names, n);
    assert PageCovers(q, max, names, n, page);
  }

  lemma LastContinues(q: Query, names: seq<string>, n: nat, batch: seq<KeyListing>)
    requires forall k :: k in names ==> KeyName(q.volume, q.bucket, k) in q.keys
    requires batch != [] && Continues(q, names, n, batch)
    ensures n + |batch| <= |names| && batch[|batch| - 1].key == names[n + |batch| - 1]
  {}

  lemma FirstOpens(q: Query, names: seq<string>, n: nat)
    requires n <= |names|
    ensures |Plain(q, names[..n])| + |Groups(q, names[..n])| > 0 ==> n > 0
  {}

  lemma CoverNone(q: Query, max: nat, names: seq<string>)
    requires forall k :: k in names ==> KeyName(q.volume, q.bucket, k) in q.keys
    ensures Covered(q, max, names, 0, [], [])
  {
    assert names[..0] == [];
  }

  lemma CoveredMeans(q: Query, max: nat, names: seq<string>, n: nat, contents: seq<KeyListing>, common: seq<string>)
    requires forall k :: k in names ==> KeyName(q.volume, q.bucket, k) in q.keys
    requires Covered(q, max, names, n, contents, common)
    ensures n <= |names|
    ensures common == Groups(q, names[..n]) && |contents| + |common| <= max
    ensures (forall k :: k in Plain(q, names[..n]) ==>
      k in names) && contents == ListingsOf(q.keys, q.volume, q.bucket, Plain(q, names[..n]))
  {}

  // ---- following continuation tokens ----

  /** Pages fetched one after the other, each from the token of the one before. */
  ghost predicate Followed(q: Query, max: nat, token: string, pages: seq<Page>)
    decreases |pages|
  {
    pages != [] ==>
      && IsPage(q, max, token, pages[0])
      && (|pages| > 1 ==> pages[0].truncated && Followed(q, max, pages[0].next, pages[1..]))
  }

  function AllContents(pages: seq<Page>): seq<KeyListing> {
    if pages == [] then [] else pages[0].contents + AllContents(pages[1..])
  }

  function AllCommon(pages: seq<Page>): seq<string> {
    if pages == [] then [] else pages[0].common + AllCommon(pages[1..])
  }

  lemma {:induction false} PlainSplits(q: Query, a: seq<string>, b: seq<string>)
    ensures Plain(q, a + b) == Plain(q, a) + Plain(q, b)
  {
    hide *;
    if b == [] {
      PlainNone(q);
      assert a + b == a;
    } else {
      var init, last := b[..|b| - 1], b[|b| - 1];
      PlainSplits(q, a, init);
      PlainSnoc(q, init, last);
      PlainSnoc(q, a + init, last);
      Regroup(a, init, [last]);
      assert b == init + [last];
      Regroup(Plain(q, a), Plain(q, init), if Folded(q, last).None? then [last] else []);
    }
  }

  lemma PlainNone(q: Query)
    ensures Plain(q, []) == []
  {}

  lemma Regroup(a: seq<string>, b: seq<string>, c: seq<string>)
    ensures a + (b + c) == a + b + c
  {}

  lemma PlainSnoc(q: Query, names: seq<string>, last: string)
    ensures Plain(q, names + [last]) == Plain(q, names) + if Folded(q, last).None? then [last] else []
  {
    hide Folded;
    assert (names + [last])[..|names|] == names;
  }

  lemma ListableParts(q: Query, a: seq<string>, b: seq<string>)
    requires Listable(q, a + b)
    ensures Listable(q, a) && Listable(q, b)
    ensures forall i, j :: 0 <= i < |a| && 0 <= j < |b| ==> Before(a[i], b[j])
  {
    var all := a + b;
    forall i | 0 <= i < |a| ensures all[i] == a[i] && a[i] in all {}
    forall j | 0 <= j < |b| ensures all[|a| + j] == b[j] && b[j] in all {}
  }

  /** Cutting the names where a new entry opens cuts their groups. */
  lemma {:induction false} GroupsSplit(q: Query, a: seq<string>, b: seq<string>)
    requires Listable(q, a + b) && (b != [] ==> Opens(q, a, b[0]))
    ensures Groups(q, a + b) == Groups(q, a) + Groups(q, b)
  {
    if b == [] {
      assert a + b == a;
    } else {
      var n := |b| - 1;
      assert (a + b)[..|a| + n] == a + b[..n] && (a + b)[|a| + n] == b[n];
      assert a + b == (a + b[..n]) + [b[n]];
      ListableParts(q, a + b[..n], [b[n]]);
      hide Listable, Folded;
      GroupsSplit(q, a, b[..n]);
      if Folded(q, b[n]).Some? {
        NotInEarlierGroup(q, a, b, Folded(q, b[n]).value);
      }
    }
  }

  /** No name after the cut folds into a group before it. */
  lemma NotInEarlierGroup(q: Query, a: seq<string>, b: seq<string>, p: string)
    requires b != [] && Listable(q, a + b) && Opens(q, a, b[0]) && Folded(q, b[|b| - 1]) == Some(p)
    ensures p !in Groups(q, a)
  {
    ListableParts(q, a, b);
    GroupsAre(q, a);
    var first, last := b[0], b[|b| - 1];
    hide Groups, Folded;
    if FoldsInto(q, a, p) {
      var i: nat :| i < |a| && Folded(q, a[i]) == Some(p);
      assert a[i] in a && first in b && last in b;
      FoldedIffExtends(q, a[i], p, last);
      FoldedIffExtends(q, a[i], p, first);
      if |b| > 1 {
        ExtensionsContiguous(p, a[i], first, last);
      }
    }
  }

  lemma CutNames(q: Query, token: string, n: nat)
    requires 0 < n <= |Names(q, token)|
    ensures Names(q, Names(q, token)[n - 1]) == Names(q, token)[n..]
    ensures Names(q, token) == Names(q, token)[..n] + Names(q, token)[n..]
  {
    hide *;
    NamesAfter(q, token, n - 1);
  }

  lemma ListingsSplit(q: Query, a: seq<string>, b: seq<string>)
    requires forall k :: k in a + b ==> KeyName(q.volume, q.bucket, k) in q.keys
    ensures forall k :: k in a || k in b ==> k in a + b
    ensures ListingsOf(q.keys, q.volume, q.bucket, a + b) == ListingsOf(q.keys, q.volume, q.bucket, a) +
      ListingsOf(q.keys, q.volume, q.bucket, b)
  {}

  /** A truncated page and the names after it: nothing lost, nothing twice. */
  lemma PageThenRest(q: Query, max: nat, token: string, page: Page)
    requires max > 0 && IsPage(q, max, token, page) && page.truncated
    ensures Before(token, page.next) && |Names(q, page.next)| < |Names(q, token)|
    ensures page.contents + ListingsOf(q.keys, q.volume, q.bucket, Contents(q, page.next)) ==
      ListingsOf(q.keys, q.volume, q.bucket, Contents(q, token))
    ensures page.common + Groups(q, Names(q, page.next)) == Groups(q, Names(q, token))
  {
    var n := TruncatedPage(q, max, token, page);
    assert Names(q, token)[n - 1] in Names(q, token);
    hide *;
    CutNames(q, token, n);
    ContentsCut(q, token, n);
    GroupsSplit(q, Names(q, token)[..n], Names(q, token)[n..]);
  }

  lemma ContentsCut(q: Query, token: string, n: nat)
    requires 0 < n <= |Names(q, token)|
    requires forall k :: k in Plain(q, Names(q, token)[..n]) ==> k in Names(q, token)
    ensures ListingsOf(q.keys, q.volume, q.bucket, Contents(q, token)) ==
      ListingsOf(q.keys, q.volume, q.bucket, Plain(q, Names(q, token)[..n])) +
        ListingsOf(q.keys, q.volume, q.bucket, Contents(q, Names(q, token)[n - 1]))
  {
    hide *;
    CutNames(q, token, n);
    PlainSplits(q, Names(q, token)[..n], Names(q, token)[n..]);
    ListingsSplit(q, Plain(q, Names(q, token)[..n]), Contents(q, Names(q, token)[n - 1]));
  }

  lemma TruncatedPage(q: Query, max: nat, token: string, page: Page) returns (n: nat)
    requires max > 0 && IsPage(q, max, token, page) && page.truncated
    ensures 0 < n < |Names(q, token)| && page.next == Names(q, token)[n - 1]
    ensures Opens(q, Names(q, token)[..n], Names(q, token)[n])
    ensures forall k :: k in Plain(q, Names(q, token)[..n]) ==> k in Names(q, token)
    ensures page.contents == ListingsOf(q.keys, q.volume, q.bucket, Plain(q, Names(q, token)[..n]))
    ensures page.common == Groups(q, Names(q, token)[..n])
  {
    hide Names, Plain, Groups, Opens;
    n :| PageCovers(q, max, Names(q, token), n, page);
  }

  /** The names that are listed as contents. */
  ghost function Contents(q: Query, token: string): (r: seq<string>)
    ensures forall k :: k in r ==> KeyName(q.volume, q.bucket, k) in q.keys
    ensures r == Plain(q, Names(q, token))
  {
    PlainIs(q, Names(q, token));
    Plain(q, Names(q, token))
  }

  /** Following tokens: every page but the last is full, tokens grow, the chain is no longer than
      the names, and once a page is not truncated the pages together are the one-shot fold. */
  lemma {:induction false} ChainIsOneShot(q: Query, max: nat, token: string, pages: seq<Page>)
    requires max > 0 && pages != [] && Followed(q, max, token, pages)
    ensures forall i :: 0 <= i < |pages| ==> |pages[i].contents| + |pages[i].common| <= max
    ensures forall i :: 0 <= i < |pages| && pages[i].truncated ==> |pages[i].contents| + |pages[i].common| == max
    ensures forall i :: 0 <= i < |pages| && pages[i].truncated ==>
      Before(if i == 0 then token else pages[i - 1].next, pages[i].next)
    ensures |pages| <= |Names(q, token)| + 1
    ensures !pages[|pages| - 1].truncated ==>
      && AllContents(pages) == ListingsOf(q.keys, q.volume, q.bucket, Contents(q, token))
      && AllCommon(pages) == Groups(q, Names(q, token))
    decreases |pages|
  {
    hide Names, Plain, Groups, Folded, Contents;
    var page, rest := pages[0], pages[1..];
    if page.truncated {
      PageThenRest(q, max, token, page);
    }
    if |pages| > 1 {
      ChainIsOneShot(q, max, page.next, rest);
      assert forall i :: 1 <= i < |pages| ==> pages[i] == rest[i - 1];
    } else if !page.truncated {
      assert pages == [page] && rest == [];
      LastPage(q, max, token, page);
    }
  }

  lemma LastPage(q: Query, max: nat, token: string, page: Page)
    requires max > 0 && IsPage(q, max, token, page) && !page.truncated
    ensures page.contents == ListingsOf(q.keys, q.volume, q.bucket, Contents(q, token))
    ensures page.common == Groups(q, Names(q, token))
  {
    var m := Names(q, token);
    assert m[..|m|] == m;
  }

  /** A key of the bucket under the prefix and after the token. */
  ghost predicate Selected(q: Query, token: string, k: string) {
    KeyName(q.volume, q.bucket, k) in q.keys && q.prefix <= k && Before(token, k)
  }

  /**
   * The one-shot fold itself, from the key set alone, each list ascending: the keys past whose prefix no
   * delimiter stands, and the distinct cuts of the others just after their first delimiter.
   */
  lemma OneShotFold(q: Query, token: string)
    ensures Ascending(Contents(q, token)) && Ascending(Groups(q, Names(q, token)))
    ensures forall k :: k in Contents(q, token) <==> Selected(q, token, k) && Whole(q, k)
    ensures forall p :: p in Groups(q, Names(q, token)) <==> exists k :: Selected(q, token, k) && FoldsAt(q, k, p)
  {
    hide Folded, Contents, Names, Groups, Plain, FoldsAt, StandsAt, Before;
    var m := Names(q, token);
    PlainIs(q, m);
    GroupsAre(q, m);
    forall k ensures k in Contents(q, token) <==> Selected(q, token, k) && Whole(q, k) {
      if Selected(q, token, k) { PlainIsWhole(q, k); }
    }
    forall p ensures FoldsInto(q, m, p) <==> exists k :: Selected(q, token, k) && FoldsAt(q, k, p) {
      if FoldsInto(q, m, p) {
        var k :| k in m && Folded(q, k) == Some(p);
        FoldedIs(q, k, p);
        assert Selected(q, token, k) && FoldsAt(q, k, p);
      }
      if k :| Selected(q, token, k) && FoldsAt(q, k, p) {
        FoldedIs(q, k, p);
        assert k in m;
      }
    }
  }

  /** Each entry of the contents carries its own key's size and entity tag. */
  lemma EntriesAre(q: Query, token: string, i: nat)
    requires i < |Contents(q, token)|
    ensures var x := ListingsOf(q.keys, q.volume, q.bucket, Contents(q, token))[i];
      && x.key == Contents(q, token)[i]
      && x.size == q.keys[KeyName(q.volume, q.bucket, x.key)].size
      && x.etag == q.keys[KeyName(q.volume, q.bucket, x.key)].etag
  {
    assert Contents(q, token)[i] in Contents(q, token);
    hide Contents;
  }
}
