/** The object-tagging document, rendered and parsed: crates/ozone-s3-gw/src/lib.rs. */
module Tagging {
  import opened Wrappers
  import opened Text
  import opened XmlText

  datatype Tag = Tag(key: string, value: string)

  datatype TagError = TooManyTags | KeyLength | ValueLength | Unterminated | MissingKey

  function Declaration(): string {
    "<?xml" + (" version=\"1.0\"" + " encoding=\"UTF-8\"?>")
  }

  function Root(): string {
    "<Tagging" + (" xmlns=\"http://" + "s3.amazonaws.com/" + "doc/2006-03-01/\">")
  }

  // ---- rendering ----

  function KeyElement(k: string): string {
    "<Key>" + Escape(k) + "</Key>"
  }

  function ValueElement(v: string): string {
    "<Value>" + Escape(v) + "</Value>"
  }

  function TagElement(t: Tag): string {
    "<Tag>" + KeyElement(t.key) + ValueElement(t.value) + "</Tag>"
  }

  function TagElements(tags: seq<Tag>): string {
    if tags == [] then "" else TagElement(tags[0]) + TagElements(tags[1..])
  }

  function Head(): string {
    Declaration() + Root() + "<TagSet>"
  }

  function Tail(): string {
    "</TagSet>" + "</Tagging>"
  }

  function Document(tags: seq<Tag>): string {
    Head() + TagElements(tags) + Tail()
  }

  lemma {:induction false} ElementsSnoc(tags: seq<Tag>, i: nat)
    requires i < |tags|
    ensures TagElements(tags[..i + 1]) == TagElements(tags[..i]) + TagElement(tags[i])
  {
    hide TagElement;
    if i == 0 {
      assert tags[..1][1..] == [] && tags[..1][0] == tags[0];
    } else {
      ElementsSnoc(tags[1..], i - 1);
      assert tags[..i + 1][1..] == tags[1..][..i] && tags[..i][1..] == tags[1..][..i - 1];
    }
  }

  method Render(tags: seq<Tag>) returns (s: string)
    ensures s == Document(tags)
    ensures s == "<?xml" + (" version=\"1.0\"" + " encoding=\"UTF-8\"?>") +
      ("<Tagging" + (" xmlns=\"http://" + "s3.amazonaws.com/" + "doc/2006-03-01/\">")) + "<TagSet>" +
      TagElements(tags) + ("</TagSet>" + "</Tagging>")
  {
    DocumentIs(tags);
    hide TagElements, Escape, Declaration, Root;
    s := "";
    s := s + Declaration();
    s := s + Root();
    s := s + "<TagSet>";
    assert s == Head();
    NoElements(tags);
    for i := 0 to |tags|
      invariant s == Head() + TagElements(tags[..i])
    {
      hide Head;
      ElementsSnoc(tags, i);
      ghost var before := s;
      s := s + "<Tag>";
      s := s + ("<Key>" + Escape(tags[i].key) + "</Key>");
      s := s + ("<Value>" + Escape(tags[i].value) + "</Value>");
      s := s + "</Tag>";
      assert s == before + TagElement(tags[i]);
    }
    hide Head;
    assert tags[..|tags|] == tags;
    s := s + "</TagSet>";
    s := s + "</Tagging>";
    assert s == Head() + TagElements(tags) + Tail();
  }

  lemma DocumentIs(tags: seq<Tag>)
    ensures Document(tags) == "<?xml" + (" version=\"1.0\"" + " encoding=\"UTF-8\"?>") +
      ("<Tagging" + (" xmlns=\"http://" + "s3.amazonaws.com/" + "doc/2006-03-01/\">")) + "<TagSet>" +
      TagElements(tags) + ("</TagSet>" + "</Tagging>")
  {
    hide TagElements;
  }

  /** Each tag is an element holding its key, then its value, escaped. */
  lemma OneElement(t: Tag)
    ensures TagElements([t]) ==
      "<Tag>" + ("<Key>" + Escape(t.key) + "</Key>") + ("<Value>" + Escape(t.value) + "</Value>") + "</Tag>"
  {
    hide Escape;
    assert [t][1..] == [] && TagElements([]) == "";
    assert TagElements([t]) == TagElement(t) + "";
  }

  lemma ElementsCons(tags: seq<Tag>)
    requires tags != []
    ensures TagElements(tags) == TagElement(tags[0]) + TagElements(tags[1..])
  {}

  lemma ElementsNone()
    ensures TagElements([]) == ""
  {}

  lemma FirstAndRest(tags: seq<Tag>, more: seq<Tag>)
    requires tags != []
    ensures tags + more != [] && (tags + more)[0] == tags[0] && (tags + more)[1..] == tags[1..] + more
  {}

  lemma Reassociate(a: string, b: string, c: string)
    ensures a + (b + c) == a + b + c
  {}

  /** The elements follow each other in the order of the tags. */
  lemma {:induction false} ElementsJoin(tags: seq<Tag>, more: seq<Tag>)
    ensures TagElements(tags + more) == TagElements(tags) + TagElements(more)
  {
    hide *;
    if tags == [] {
      ElementsNone();
      assert tags + more == more;
    } else {
      ElementsJoin(tags[1..], more);
      FirstAndRest(tags, more);
      ElementsCons(tags);
      ElementsCons(tags + more);
      Reassociate(TagElement(tags[0]), TagElements(tags[1..]), TagElements(more));
    }
  }

  lemma NoElements(tags: seq<Tag>)
    ensures TagElements(tags[..0]) == ""
  {}

  // ---- parsing ----

  function TagsError(tags: seq<Tag>): Option<TagError> {
    if |tags| > 10 then Some(TooManyTags) else FirstBadTag(tags)
  }

  function FirstBadTag(tags: seq<Tag>): Option<TagError> {
    if tags == [] then None
    else if tags[0].key == "" || |tags[0].key| > 128 then Some(KeyLength)
    else if |tags[0].value| > 256 then Some(ValueLength)
    else FirstBadTag(tags[1..])
  }

  /** A key of 1 to 128 characters and a value of at most 256. */
  predicate KeyFits(t: Tag) { 1 <= |t.key| <= 128 }
  predicate ValueFits(t: Tag) { |t.value| <= 256 }

  /** At most ten tags, each with a key and a value that fit. */
  ghost predicate WithinLimits(tags: seq<Tag>) {
    |tags| <= 10 && forall i: nat :: i < |tags| ==> KeyFits(tags[i]) && ValueFits(tags[i])
  }

  /** Tag i is the first that does not fit, and e says which part; the key is looked at first. */
  ghost predicate Offends(tags: seq<Tag>, i: nat, e: TagError) {
    && i < |tags| && (forall j: nat :: j < i ==> KeyFits(tags[j]) && ValueFits(tags[j]))
    && (if !KeyFits(tags[i]) then e == KeyLength else !ValueFits(tags[i]) && e == ValueLength)
  }

  lemma {:induction false} BadTagIs(tags: seq<Tag>)
    ensures FirstBadTag(tags).None? <==> forall i: nat :: i < |tags| ==> KeyFits(tags[i]) && ValueFits(tags[i])
    ensures FirstBadTag(tags).Some? ==> exists i: nat :: Offends(tags, i, FirstBadTag(tags).value)
  {
    if tags != [] {
      var rest := tags[1..];
      if KeyFits(tags[0]) && ValueFits(tags[0]) {
        BadTagIs(rest);
        assert forall i: nat :: i < |rest| ==> rest[i] == tags[i + 1];
        if FirstBadTag(rest).Some? {
          var i: nat :| Offends(rest, i, FirstBadTag(rest).value);
          forall j: nat | j < i + 1 ensures KeyFits(tags[j]) && ValueFits(tags[j]) {
            if j > 0 { assert rest[j - 1] == tags[j]; }
          }
          assert Offends(tags, i + 1, FirstBadTag(tags).value);
        } else {
          forall i: nat | i < |tags| ensures KeyFits(tags[i]) && ValueFits(tags[i]) {
            if i > 0 { assert rest[i - 1] == tags[i]; }
          }
        }
      } else {
        assert Offends(tags, 0, FirstBadTag(tags).value);
      }
    }
  }

  /** The text between the first `open` and the next `close`. */
  function Between(s: string, open: string, close: string): Option<string> {
    match Find(s, open)
    case None => None
    case Some(i) =>
      var rest := s[i + |open|..];
      match Find(rest, close) case None => None case Some(j) => Some(rest[..j])
  }

  /** The tags of a document, from the next `<Tag>` on. */
  function TagsIn(s: string): Result<seq<Tag>, TagError>
    decreases |s|, 1
  {
    match Find(s, "<Tag>")
    case None => Ok([])
    case Some(i) => TagsAfter(s[i + 5..])
  }

  /** The tags once a `<Tag>` has been entered. */
  function TagsAfter(after: string): Result<seq<Tag>, TagError>
    decreases |after|, 2
  {
    match Find(after, "</Tag>")
    case None => Err(Unterminated)
    case Some(j) =>
      match TagOf(after[..j])
      case None => Err(MissingKey)
      case Some(t) => Prepend([t], TagsIn(after[j + 6..]))
  }

  function TagOf(block: string): Option<Tag> {
    match Between(block, "<Key>", "</Key>")
    case None => None
    case Some(k) =>
      var v := Between(block, "<Value>", "</Value>");
      Some(Tag(Unescape(k), Unescape(if v.Some? then v.value else "")))
  }

  function Prepend(ts: seq<Tag>, r: Result<seq<Tag>, TagError>): Result<seq<Tag>, TagError> {
    match r case Ok(us) => Ok(ts + us) case Err(e) => Err(e)
  }

  function Parsed(s: string): Result<seq<Tag>, TagError> {
    match TagsIn(s)
    case Err(e) => Err(e)
    case Ok(tags) => (match TagsError(tags) case Some(e) => Err(e) case None => Ok(tags))
  }

  method ValidateTags(tags: seq<Tag>) returns (r: Result<(), TagError>)
    ensures r == match TagsError(tags) case Some(e) => Err(e) case None => Ok(())
    ensures r.Ok? <==> WithinLimits(tags)
    ensures |tags| > 10 ==> r == Err(TooManyTags)
    ensures |tags| <= 10 && r.Err? ==> exists i: nat :: Offends(tags, i, r.error)
  {
    hide KeyFits, ValueFits;
    BadTagIs(tags);
    if |tags| > 10 {
      return Err(TooManyTags);
    }
    for i := 0 to |tags|
      invariant FirstBadTag(tags) == FirstBadTag(tags[i..])
    {
      if tags[i].key == "" || |tags[i].key| > 128 {
        return Err(KeyLength);
      }
      if |tags[i].value| > 256 {
        return Err(ValueLength);
      }
      assert tags[i..][1..] == tags[i + 1..];
    }
    return Ok(());
  }

  /** Scan a document tag by tag. */
  method Scan(s: string) returns (r: Result<seq<Tag>, TagError>)
    ensures r == TagsIn(s)
  {
    hide Find, TagOf, TagsIn, TagsAfter;
    var tags, rest := [], s;
    PrependNothing(TagsIn(s));
    while true
      invariant TagsIn(s) == Prepend(tags, TagsIn(rest))
      decreases |rest|
    {
      TagsTurn(rest);
      var start := Find(rest, "<Tag>");
      if start.None? {
        assert tags + [] == tags;
        return Ok(tags);
      }
      var after := rest[start.value + 5..];
      var end := Find(after, "</Tag>");
      if end.None? {
        return Err(Unterminated);
      }
      var t := TagOf(after[..end.value]);
      if t.None? {
        return Err(MissingKey);
      }
      PrependTwice(tags, [t.value], TagsIn(after[end.value + 6..]));
      tags := tags + [t.value];
      rest := after[end.value + 6..];
    }
  }

  method Parse(s: string) returns (r: Result<seq<Tag>, TagError>)
    ensures r == Parsed(s)
    ensures r.Ok? ==> WithinLimits(r.value)
  {
    hide TagsError, TagsIn, WithinLimits, Offends;
    r := Scan(s);
    if r.Ok? {
      var v := ValidateTags(r.value);
      if v.Err? {
        return Err(v.error);
      }
    }
  }

  /** One turn of the scan. */
  lemma TagsTurn(rest: string)
    ensures match Find(rest, "<Tag>")
            case None => TagsIn(rest) == Ok([])
            case Some(i) =>
              var after := rest[i + 5..];
              match Find(after, "</Tag>")
              case None => TagsIn(rest) == Err(Unterminated)
              case Some(j) =>
                match TagOf(after[..j])
                case None => TagsIn(rest) == Err(MissingKey)
                case Some(t) => TagsIn(rest) == Prepend([t], TagsIn(after[j + 6..]))
  {
    hide Find, TagOf, Prepend;
  }

  lemma PrependNothing(r: Result<seq<Tag>, TagError>)
    ensures Prepend([], r) == r
  {
    if r.Ok? { assert [] + r.value == r.value; }
  }

  lemma PrependTwice(a: seq<Tag>, b: seq<Tag>, r: Result<seq<Tag>, TagError>)
    ensures Prepend(a, Prepend(b, r)) == Prepend(a + b, r)
  {
    if r.Ok? { assert a + (b + r.value) == a + b + r.value; }
  }

  // ---- searching a rendered document ----

  function Shift(n: nat, r: Option<nat>): Option<nat> {
    match r case None => None case Some(i) => Some(n + i)
  }

  /** A search for a tag passes over text without a bracket. */
  lemma {:induction false} PastText(p: string, rest: string, needle: string)
    requires needle != "" && needle[0] == '<' && '<' !in p
    ensures Find(p + rest, needle) == Shift(|p|, Find(rest, needle))
  {
    if p == "" {
      assert p + rest == rest;
    } else {
      var s := p + rest;
      assert s[0] == p[0] && p[0] in p && s[1..] == p[1..] + rest;
      PastText(p[1..], rest, needle);
    }
  }

  /** A search for a tag passes over a different tag. */
  lemma PastTag(tag: string, rest: string, needle: string, k: nat)
    requires tag != "" && needle != "" && tag[0] == '<' == needle[0] && '<' !in tag[1..]
    requires k < |tag| && k < |needle| && tag[k] != needle[k]
    ensures Find(tag + rest, needle) == Shift(|tag|, Find(rest, needle))
  {
    var s := tag + rest;
    assert s[k] == tag[k] && s[1..] == tag[1..] + rest;
    PastText(tag[1..], rest, needle);
  }

  lemma FoundHere(needle: string, rest: string)
    ensures Find(needle + rest, needle) == Some(0)
  {}

  /** The text between two tags is found when it holds no bracket. */
  lemma BetweenIs(open: string, text: string, close: string, rest: string)
    requires '<' !in text && close != "" && close[0] == '<'
    ensures Between(open + text + close + rest, open, close) == Some(text)
  {
    var s := open + text + close + rest;
    var tail := text + (close + rest);
    assert s == open + tail;
    FoundHere(open, tail);
    assert s[|open|..] == tail;
    PastText(text, close + rest, close);
    FoundHere(close, rest);
    assert tail[..|text|] == text;
  }

  /** An element's text runs from the first opening tag to the first closing tag after it. */
  ghost predicate ElementAt(s: string, open: string, close: string, i: nat, j: nat, text: string) {
    FirstAt(s, open, i) && FirstAt(s[i + |open|..], close, j) && text == s[i + |open|..][..j]
  }

  lemma ElementIs(s: string, open: string, close: string, text: string)
    ensures Between(s, open, close) == Some(text) <==> exists i: nat, j: nat :: ElementAt(s, open, close, i, j, text)
  {
    FindIs(s, open);
    if Find(s, open).Some? {
      FindIs(s[Find(s, open).value + |open|..], close);
    }
    forall i: nat, j: nat | ElementAt(s, open, close, i, j, text) ensures Between(s, open, close) == Some(text) {
      FindFirst(s, open, i);
      FindFirst(s[i + |open|..], close, j);
    }
    hide StandsAt, Find;
    if Between(s, open, close) == Some(text) {
      var i := Find(s, open).value;
      assert ElementAt(s, open, close, i, Find(s[i + |open|..], close).value, text);
    }
  }

  /** A block is a tag if it has a key element; without a value element the value is empty. */
  lemma TagOfIs(block: string)
    ensures TagOf(block).None? <==> Between(block, "<Key>", "</Key>").None?
    ensures TagOf(block).Some? ==>
      && TagOf(block).value.key == Unescape(Between(block, "<Key>", "</Key>").value)
      && (Between(block, "<Value>", "</Value>").None? ==> TagOf(block).value.value == "")
      && (Between(block, "<Value>", "</Value>").Some? ==>
            TagOf(block).value.value == Unescape(Between(block, "<Value>", "</Value>").value))
  {
    hide Between;
    UnescapeReads([]);
  }

  lemma KeyFound(t: Tag)
    ensures Between(KeyElement(t.key) + ValueElement(t.value), "<Key>", "</Key>") == Some(Escape(t.key))
  {
    EscapedHasNoBracket(t.key);
    hide Escape, ValueElement, Between;
    BetweenIs("<Key>", Escape(t.key), "</Key>", ValueElement(t.value));
  }

  lemma PastKey(k: string, rest: string, needle: string, i: nat)
    requires |needle| > 2 && |needle| > i && needle[0] == '<'
    requires i < 5 && "<Key>"[i] != needle[i] && (needle[1] != '/' || needle[2] != 'K')
    ensures Find(KeyElement(k) + rest, needle) == Shift(|KeyElement(k)|, Find(rest, needle))
  {
    EscapedHasNoBracket(k);
    var e := Escape(k);
    hide Escape, Find;
    assert KeyElement(k) + rest == "<Key>" + (e + ("</Key>" + rest));
    PastTag("<Key>", e + ("</Key>" + rest), needle, i);
    PastText(e, "</Key>" + rest, needle);
    PastTag("</Key>", rest, needle, if needle[1] != '/' then 1 else 2);
  }

  lemma PastValue(v: string, rest: string)
    ensures Find(ValueElement(v) + rest, "</Tag>") == Shift(|ValueElement(v)|, Find(rest, "</Tag>"))
  {
    EscapedHasNoBracket(v);
    var e := Escape(v);
    hide Escape, Find;
    assert ValueElement(v) + rest == "<Value>" + (e + ("</Value>" + rest));
    PastTag("<Value>", e + ("</Value>" + rest), "</Tag>", 1);
    PastText(e, "</Value>" + rest, "</Tag>");
    PastTag("</Value>", rest, "</Tag>", 2);
  }

  lemma BetweenPast(p: string, s: string, open: string, close: string)
    requires Find(p + s, open) == Shift(|p|, Find(s, open))
    ensures Between(p + s, open, close) == Between(s, open, close)
  {
    hide Find;
    var f := Find(s, open);
    if f.Some? {
      SliceJoin(p, s, f.value + |open|);
    }
  }

  lemma ValueFound(t: Tag)
    ensures Between(KeyElement(t.key) + ValueElement(t.value), "<Value>", "</Value>") == Some(Escape(t.value))
  {
    EscapedHasNoBracket(t.value);
    hide Escape, KeyElement, Find, Between;
    var v := ValueElement(t.value);
    PastKey(t.key, v, "<Value>", 1);
    BetweenPast(KeyElement(t.key), v, "<Value>", "</Value>");
    assert v == "<Value>" + Escape(t.value) + "</Value>" + "";
    BetweenIs("<Value>", Escape(t.value), "</Value>", "");
  }

  /** A rendered tag is read back. */
  lemma TagReadBack(t: Tag)
    ensures TagOf(KeyElement(t.key) + ValueElement(t.value)) == Some(t)
  {
    KeyFound(t);
    ValueFound(t);
    UnescapeInvertsEscape(t.key);
    UnescapeInvertsEscape(t.value);
    hide Escape, Unescape, Between, KeyElement, ValueElement;
  }

  lemma TagEndsHere(t: Tag, rest: string)
    ensures Find(KeyElement(t.key) + ValueElement(t.value) + "</Tag>" + rest, "</Tag>") ==
      Some(|KeyElement(t.key) + ValueElement(t.value)|)
  {
    var k, v := KeyElement(t.key), ValueElement(t.value);
    hide KeyElement, ValueElement, Find;
    assert k + v + "</Tag>" + rest == k + (v + ("</Tag>" + rest));
    PastKey(t.key, v + ("</Tag>" + rest), "</Tag>", 1);
    PastValue(t.value, "</Tag>" + rest);
    FoundHere("</Tag>", rest);
  }

  lemma ReadBlock(t: Tag, block: string, rest: string)
    requires Find(block + "</Tag>" + rest, "</Tag>") == Some(|block|) && TagOf(block) == Some(t)
    ensures TagsIn("<Tag>" + (block + "</Tag>" + rest)) == Prepend([t], TagsIn(rest))
  {
    var after := block + "</Tag>" + rest;
    FoundHere("<Tag>", after);
    hide Find, TagOf;
    assert ("<Tag>" + after)[5..] == after;
    assert after[..|block|] == block && after[|block| + 6..] == rest;
  }

  lemma ReadElement(t: Tag, rest: string)
    ensures TagsIn(TagElement(t) + rest) == Prepend([t], TagsIn(rest))
  {
    hide KeyElement, ValueElement, TagOf, Find, TagsIn;
    var block := KeyElement(t.key) + ValueElement(t.value);
    assert TagElement(t) + rest == "<Tag>" + (block + "</Tag>" + rest);
    TagEndsHere(t, rest);
    TagReadBack(t);
    ReadBlock(t, block, rest);
  }

  lemma NoTagInTail()
    ensures TagsIn(Tail()) == Ok([])
  {
    hide Find;
    assert Tail() == "</TagSet>" + ("</Tagging>" + "");
    PastTag("</TagSet>", "</Tagging>" + "", "<Tag>", 1);
    PastTag("</Tagging>", "", "<Tag>", 1);
    NotInNothing();
  }

  lemma NotInNothing()
    ensures Find("", "<Tag>").None?
  {}

  lemma {:induction false} ReadElements(tags: seq<Tag>)
    ensures TagsIn(TagElements(tags) + Tail()) == Ok(tags)
  {
    hide TagElement, TagsIn, Tail;
    if tags == [] {
      assert TagElements(tags) + Tail() == Tail();
      NoTagInTail();
    } else {
      ReadElements(tags[1..]);
      assert TagElements(tags) + Tail() == TagElement(tags[0]) + (TagElements(tags[1..]) + Tail());
      ReadElement(tags[0], TagElements(tags[1..]) + Tail());
      assert [tags[0]] + tags[1..] == tags;
    }
  }

  lemma PastDeclaration(rest: string)
    ensures Find(Declaration() + rest, "<Tag>") == Shift(|Declaration()|, Find(rest, "<Tag>"))
  {
    hide Find;
    var a, b := " version=\"1.0\"", " encoding=\"UTF-8\"?>";
    assert '<' !in a && '<' !in b;
    PastText(a + b, rest, "<Tag>");
    assert Declaration() + rest == "<?xml" + ((a + b) + rest);
    PastTag("<?xml", (a + b) + rest, "<Tag>", 1);
  }

  lemma RootTextIsPlain()
    ensures '<' !in " xmlns=\"http://" + "s3.amazonaws.com/" + "doc/2006-03-01/\">"
  {
    var a, b, c := " xmlns=\"http://", "s3.amazonaws.com/", "doc/2006-03-01/\">";
    assert '<' !in a;
    assert '<' !in b;
    assert '<' !in c;
  }

  lemma PastRoot(rest: string)
    ensures Find(Root() + rest, "<Tag>") == Shift(|Root()|, Find(rest, "<Tag>"))
  {
    hide Find;
    var text := " xmlns=\"http://" + "s3.amazonaws.com/" + "doc/2006-03-01/\">";
    RootTextIsPlain();
    PastText(text, rest, "<Tag>");
    assert Root() + rest == "<Tagging" + (text + rest);
    PastTag("<Tagging", text + rest, "<Tag>", 4);
  }

  lemma PastHead(rest: string)
    ensures Find(Head() + rest, "<Tag>") == Shift(|Head()|, Find(rest, "<Tag>"))
  {
    hide Find, Declaration, Root;
    assert Head() + rest == Declaration() + (Root() + ("<TagSet>" + rest));
    PastDeclaration(Root() + ("<TagSet>" + rest));
    PastRoot("<TagSet>" + rest);
    PastTag("<TagSet>", rest, "<Tag>", 4);
  }

  lemma SliceJoin(a: string, b: string, n: nat)
    requires n <= |b|
    ensures (a + b)[|a| + n..] == b[n..]
  {}

  lemma SkipHead(rest: string)
    ensures TagsIn(Head() + rest) == TagsIn(rest)
  {
    hide Find, Head, TagsAfter;
    PastHead(rest);
    var f := Find(rest, "<Tag>");
    if f.Some? {
      SliceJoin(Head(), rest, f.value + 5);
    }
  }

  /** Parsing a rendered document returns the tags exactly when they are within the limits. */
  lemma TaggingRoundTrip(tags: seq<Tag>)
    ensures Parsed(Document(tags)) == match TagsError(tags) case None => Ok(tags) case Some(e) => Err(e)
    ensures Parsed(Document(tags)) == Ok(tags) <==> WithinLimits(tags)
  {
    BadTagIs(tags);
    hide KeyFits, ValueFits, FirstBadTag;
    hide TagsIn, TagElements, Head, Tail;
    ReadElements(tags);
    assert Document(tags) == Head() + (TagElements(tags) + Tail());
    SkipHead(TagElements(tags) + Tail());
  }
}
