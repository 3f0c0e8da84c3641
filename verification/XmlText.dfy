/** XML text escaping: `xml_escape` and `xml_unescape` of crates/ozone-s3-gw/src/lib.rs. */
module XmlText {

  /** Every non-overlapping occurrence of `from`, left to right, becomes `to`. */
  function Replace(s: string, from: string, to: string): string
    requires from != ""
    decreases |s|
  {
    if from <= s then to + Replace(s[|from|..], from, to)
    else if s == "" then ""
    else [s[0]] + Replace(s[1..], from, to)
  }

  function Escape(s: string): string {
    Replace(Replace(Replace(s, "&", "&amp;"), "<", "&lt;"), ">", "&gt;")
  }

  function Unescape(s: string): string {
    var brackets := Replace(Replace(s, "&lt;", "<"), "&gt;", ">");
    Replace(Replace(Replace(brackets, "&quot;", "\""), "&apos;", "'"), "&amp;", "&")
  }

  // ---- text with some characters written as entities ----

  datatype Coding = Coding(amp: bool, lt: bool, gt: bool)

  function Code(e: Coding, c: char): string {
    if c == '&' && e.amp then "&amp;"
    else if c == '<' && e.lt then "&lt;"
    else if c == '>' && e.gt then "&gt;"
    else [c]
  }

  function Coded(e: Coding, s: string): string {
    if s == "" then "" else Code(e, s[0]) + Coded(e, s[1..])
  }

  /** Replacing one character works piece by piece. */
  lemma {:induction false} ReplaceCharSplits(a: string, b: string, c: char, to: string)
    ensures Replace(a + b, [c], to) == Replace(a, [c], to) + Replace(b, [c], to)
  {
    if a == "" {
      assert a + b == b;
    } else {
      var s := a + b;
      assert s[1..] == a[1..] + b && s[0] == a[0];
      assert [c] <= s <==> s[0] == c;
      assert [c] <= a <==> a[0] == c;
      ReplaceCharSplits(a[1..], b, c, to);
    }
  }

  /** One escaping pass turns one more character into its entity. */
  lemma {:induction false} EscapePass(e: Coding, f: Coding, c: char, to: string, s: string)
    requires forall x :: Replace(Code(e, x), [c], to) == Code(f, x)
    ensures Replace(Coded(e, s), [c], to) == Coded(f, s)
  {
    if s != "" {
      ReplaceCharSplits(Code(e, s[0]), Coded(e, s[1..]), c, to);
      EscapePass(e, f, c, to, s[1..]);
    }
  }

  lemma {:induction false} PlainCoded(s: string)
    ensures Coded(Coding(false, false, false), s) == s
  {
    if s != "" { PlainCoded(s[1..]); }
  }

  lemma {:induction false} ReplaceAbsent(s: string, c: char, to: string)
    requires c !in s
    ensures Replace(s, [c], to) == s
  {
    if s != "" {
      assert s[0] in s;
      ReplaceAbsent(s[1..], c, to);
    }
  }

  lemma ReplaceOne(c: char, to: string)
    ensures Replace([c], [c], to) == to
  {
    assert [c][1..] == "";
    assert Replace("", [c], to) == "";
  }

  const NONE := Coding(false, false, false)
  const AMP := Coding(true, false, false)
  const AMP_LT := Coding(true, true, false)
  const ALL := Coding(true, true, true)

  lemma EscapeAmp(s: string)
    ensures Replace(s, "&", "&amp;") == Coded(AMP, s)
  {
    PlainCoded(s);
    forall x ensures Replace(Code(NONE, x), ['&'], "&amp;") == Code(AMP, x) {
      if x == '&' { ReplaceOne('&', "&amp;"); } else { ReplaceAbsent([x], '&', "&amp;"); }
    }
    hide Replace, Code, Coded;
    EscapePass(NONE, AMP, '&', "&amp;", s);
  }

  lemma EscapeLt(s: string)
    ensures Replace(Coded(AMP, s), "<", "&lt;") == Coded(AMP_LT, s)
  {
    forall x ensures Replace(Code(AMP, x), ['<'], "&lt;") == Code(AMP_LT, x) {
      if x == '<' { ReplaceOne('<', "&lt;"); } else { ReplaceAbsent(Code(AMP, x), '<', "&lt;"); }
    }
    hide Replace, Code, Coded;
    EscapePass(AMP, AMP_LT, '<', "&lt;", s);
  }

  lemma EscapeGt(s: string)
    ensures Replace(Coded(AMP_LT, s), ">", "&gt;") == Coded(ALL, s)
  {
    forall x ensures Replace(Code(AMP_LT, x), ['>'], "&gt;") == Code(ALL, x) {
      if x == '>' { ReplaceOne('>', "&gt;"); } else { ReplaceAbsent(Code(AMP_LT, x), '>', "&gt;"); }
    }
    hide Replace, Code, Coded;
    EscapePass(AMP_LT, ALL, '>', "&gt;", s);
  }

  /** The three escaping passes write each special character as its entity. */
  lemma EscapeIsCoded(s: string)
    ensures Escape(s) == Coded(ALL, s)
  {
    EscapeAmp(s);
    EscapeLt(s);
    EscapeGt(s);
    hide Replace, Code, Coded;
  }

  // ---- unescaping ----

  /** Text without an ampersand is copied by a pass that looks for an entity. */
  lemma {:induction false} CopyPlain(p: string, rest: string, from: string, to: string)
    requires from != "" && from[0] == '&' && '&' !in p
    ensures Replace(p + rest, from, to) == p + Replace(rest, from, to)
  {
    if p == "" {
      assert p + rest == rest;
    } else {
      var s := p + rest;
      assert s[0] == p[0] && p[0] in p && s[1..] == p[1..] + rest;
      CopyPlain(p[1..], rest, from, to);
    }
  }

  /** An entity that differs from the one looked for is copied whole. */
  lemma CopyEntity(ent: string, rest: string, from: string, to: string, k: nat)
    requires ent != "" && from != "" && ent[0] == '&' == from[0] && '&' !in ent[1..]
    requires k < |ent| && k < |from| && ent[k] != from[k]
    ensures Replace(ent + rest, from, to) == ent + Replace(rest, from, to)
  {
    var s := ent + rest;
    assert s[k] == ent[k];
    assert s[1..] == ent[1..] + rest;
    CopyPlain(ent[1..], rest, from, to);
  }

  lemma ReplaceFirst(from: string, to: string, rest: string)
    requires from != ""
    ensures Replace(from + rest, from, to) == to + Replace(rest, from, to)
  {
    assert (from + rest)[|from|..] == rest;
  }

  /** A character as XML text writes it: as it is, or as one of the five entities. */
  datatype Piece = Plain(c: char) | Entity(c: char)

  const SPECIAL := {'&', '<', '>', '\"', '\''}

  /** A bare ampersand is not a piece; only the special characters have entities. */
  predicate Proper(p: Piece) {
    if p.Plain? then p.c != '&' else p.c in SPECIAL
  }

  function EntityOf(c: char): string
    requires c in SPECIAL
  {
    if c == '&' then "&amp;" else if c == '<' then "&lt;" else if c == '>' then "&gt;"
    else if c == '\"' then "&quot;" else "&apos;"
  }

  /** A piece once the entities of the characters outside `left` have been decoded. */
  function Written(left: set<char>, p: Piece): string
    requires Proper(p)
  {
    if p.Entity? && p.c in left then EntityOf(p.c) else [p.c]
  }

  function TextOf(left: set<char>, ps: seq<Piece>): string
    requires forall i :: 0 <= i < |ps| ==> Proper(ps[i])
  {
    if ps == [] then "" else Written(left, ps[0]) + TextOf(left, ps[1..])
  }

  /** The characters the pieces stand for. */
  function Meant(ps: seq<Piece>): (s: string)
    ensures |s| == |ps|
  {
    seq(|ps|, i requires 0 <= i < |ps| => ps[i].c)
  }

  lemma EntityShape(c: char, d: char)
    requires c in SPECIAL && d in SPECIAL
    ensures |EntityOf(c)| > 3 && EntityOf(c)[0] == '&' && '&' !in EntityOf(c)[1..]
    ensures c != d ==> EntityOf(c)[1] != EntityOf(d)[1] || EntityOf(c)[2] != EntityOf(d)[2]
  {}

  /** A pass decodes the entity of its own character and copies every other piece. */
  lemma PassPiece(left: set<char>, c: char, p: Piece, rest: string)
    requires Proper(p) && c in SPECIAL && '&' in left && c in left
    ensures Replace(Written(left, p) + rest, EntityOf(c), [c]) ==
      Written(left - {c}, p) + Replace(rest, EntityOf(c), [c])
  {
    EntityShape(c, c);
    hide Replace, EntityOf;
    if p.Entity? && p.c == c {
      ReplaceFirst(EntityOf(c), [c], rest);
    } else if p.Entity? && p.c in left {
      EntityShape(p.c, c);
      CopyEntity(EntityOf(p.c), rest, EntityOf(c), [c], if EntityOf(p.c)[1] != EntityOf(c)[1] then 1 else 2);
    } else {
      CopyPlain([p.c], rest, EntityOf(c), [c]);
    }
  }

  lemma {:induction false} PassText(left: set<char>, c: char, ps: seq<Piece>)
    requires c in SPECIAL && '&' in left && c in left && forall i :: 0 <= i < |ps| ==> Proper(ps[i])
    ensures EntityOf(c) != "" && Replace(TextOf(left, ps), EntityOf(c), [c]) == TextOf(left - {c}, ps)
  {
    EntityShape(c, c);
    hide EntityOf, Written;
    if ps == [] {
      assert Replace("", EntityOf(c), [c]) == "";
    } else {
      PassText(left, c, ps[1..]);
      PassPiece(left, c, ps[0], TextOf(left, ps[1..]));
    }
  }

  lemma {:induction false} NothingLeft(ps: seq<Piece>)
    requires forall i :: 0 <= i < |ps| ==> Proper(ps[i])
    ensures TextOf({}, ps) == Meant(ps)
  {
    if ps != [] {
      NothingLeft(ps[1..]);
      assert Meant(ps) == [ps[0].c] + Meant(ps[1..]);
    }
  }

  /** Text in which any characters are written as entities, and no bare ampersand stands, means what it says. */
  lemma UnescapeReads(ps: seq<Piece>)
    requires forall i :: 0 <= i < |ps| ==> Proper(ps[i])
    ensures Unescape(TextOf(SPECIAL, ps)) == Meant(ps)
  {
    hide Replace, EntityOf, TextOf, Meant, Written, Proper;
    var a := SPECIAL - {'<'};
    var b := a - {'>'};
    var c := b - {'\"'};
    var d := c - {'\''};
    assert d - {'&'} == {};
    PassText(SPECIAL, '<', ps);
    PassText(a, '>', ps);
    PassText(b, '\"', ps);
    PassText(c, '\'', ps);
    PassText(d, '&', ps);
    NothingLeft(ps);
    EntitiesAre();
  }

  lemma EntitiesAre()
    ensures EntityOf('&') == "&amp;" && EntityOf('<') == "&lt;" && EntityOf('>') == "&gt;"
    ensures EntityOf('\"') == "&quot;" && EntityOf('\'') == "&apos;"
  {}

  /** Escaping writes `&`, `<` and `>` as entities, and nothing else. */
  function Escaped(s: string): (ps: seq<Piece>)
    ensures |ps| == |s| && forall i :: 0 <= i < |ps| ==> Proper(ps[i])
  {
    seq(|s|, i requires 0 <= i < |s| => if s[i] in {'&', '<', '>'} then Entity(s[i]) else Plain(s[i]))
  }

  lemma {:induction false} CodedIsText(s: string)
    ensures Coded(ALL, s) == TextOf(SPECIAL, Escaped(s))
  {
    if s != "" {
      CodedIsText(s[1..]);
      assert Escaped(s)[1..] == Escaped(s[1..]);
    }
  }

  /** Unescaping inverts escaping, on all text. */
  lemma UnescapeInvertsEscape(s: string)
    ensures Unescape(Escape(s)) == s
  {
    EscapeIsCoded(s);
    CodedIsText(s);
    UnescapeReads(Escaped(s));
    assert Meant(Escaped(s)) == s;
    hide Replace, Coded, Escape;
  }

  /** Escaped text never holds a tag delimiter. */
  lemma {:induction false} EscapedHasNoBracket(s: string)
    ensures '<' !in Escape(s) && '>' !in Escape(s)
  {
    EscapeIsCoded(s);
    CodedHasNoBracket(s);
  }

  lemma {:induction false} CodedHasNoBracket(s: string)
    ensures '<' !in Coded(ALL, s) && '>' !in Coded(ALL, s)
  {
    if s != "" { CodedHasNoBracket(s[1..]); }
  }
}
