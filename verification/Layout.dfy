/** The object layout of crates/ozone-ec/src/stripe.rs: cells dealt round-robin over k data shards. */
module Layout {
  import opened Wrappers
  import opened ReedSolomon

  /** n * c as repeated addition: layouts advance one cell at a time. */
  function Times(n: nat, c: nat): nat {
    if n == 0 then 0 else Times(n - 1, c) + c
  }

  lemma {:induction false} TimesIsProduct(n: nat, c: nat)
    ensures Times(n, c) == n * c
  {
    if n > 0 {
      TimesIsProduct(n - 1, c);
      assert n * c == (n - 1) * c + c;
    }
  }

  datatype Profile = Profile(data: nat, parity: nat, chunkSize: nat) {
    function StripeSize(): nat { Times(data, chunkSize) }
    function Total(): nat { data + parity }
    function Config(): EcConfig { EcConfig(data, parity) }
    predicate Layable() { data > 0 && chunkSize > 0 }
  }

  function Min(a: int, b: int): int { if a < b then a else b }
  function Monus(a: nat, b: nat): nat { if a < b then 0 else a - b }
  function SatMul(a: nat, b: nat): nat { if Times(a, b) > USIZE_MAX then USIZE_MAX else Times(a, b) }

  lemma StripeSizePositive(p: Profile)
    requires p.Layable()
    ensures p.StripeSize() > 0
  {
    TimesMono(1, p.data, p.chunkSize);
    assert Times(1, p.chunkSize) == p.chunkSize;
  }

  function NumStripes(p: Profile, len: nat): nat
    requires p.Layable()
  {
    StripeSizePositive(p);
    if len == 0 then 0 else (len + p.StripeSize() - 1) / p.StripeSize()
  }

  /** The object's length is a usize and its shards are byte vectors. */
  predicate Fits(p: Profile, len: nat) {
    p.Layable() && len <= USIZE_MAX && Times(NumStripes(p, len), p.chunkSize) <= ISIZE_MAX
  }

  /** Where cell (shard i, stripe s) starts in the object. */
  function CellOff(p: Profile, i: nat, s: nat): nat {
    Times(s, p.StripeSize()) + Times(i, p.chunkSize)
  }

  function CellLen(p: Profile, len: nat, i: nat, s: nat): nat {
    var off := CellOff(p, i, s);
    if off >= len then 0 else Min(len - off, p.chunkSize)
  }

  function ExpectedShardLen(p: Profile, len: nat, idx: nat): nat
    requires p.Layable()
  {
    StripeSizePositive(p);
    var c := p.chunkSize;
    if idx < p.data then
      var full := SatMul(len / p.StripeSize(), c);
      var rem := len % p.StripeSize();
      full + Min(Monus(rem, Times(idx, c)), c)
    else
      SatMul(NumStripes(p, len), c)
  }

  /** Bytes data shard i has accumulated before stripe s. */
  function PrefixLen(p: Profile, len: nat, i: nat, s: nat): nat {
    if s == 0 then 0 else PrefixLen(p, len, i, s - 1) + CellLen(p, len, i, s - 1)
  }

  lemma DivBounds(len: nat, d: nat)
    requires d > 0
    ensures Times(len / d, d) + len % d == len && len % d < d
  {
    TimesIsProduct(len / d, d);
  }

  lemma {:induction false} TimesMono(a: nat, b: nat, c: nat)
    requires a <= b
    ensures Times(a, c) <= Times(b, c)
    decreases b
  {
    if a < b { TimesMono(a, b - 1, c); }
  }

  lemma {:induction false} TimesGrows(n: nat, c: nat, d: nat)
    requires c <= d
    ensures Times(n, c) <= Times(n, d)
  {
    if n > 0 { TimesGrows(n - 1, c, d); }
  }

  lemma DivUnique(a: nat, d: nat, q: nat)
    requires d > 0 && Times(q, d) <= a < Times(q, d) + d
    ensures a / d == q
  {
    DivBounds(a, d);
    var r := a / d;
    assert Times(r + 1, d) == Times(r, d) + d;
    assert Times(q + 1, d) == Times(q, d) + d;
    if r < q {
      TimesMono(r + 1, q, d);
    } else if r > q {
      TimesMono(q + 1, r, d);
    }
  }

  /** Every stripe but a partial last one is full. */
  lemma FullCell(p: Profile, len: nat, i: nat, s: nat)
    requires p.Layable() && i < p.data
    requires Times(s + 1, p.StripeSize()) <= len
    ensures CellLen(p, len, i, s) == p.chunkSize
  {
    assert Times(i + 1, p.chunkSize) == Times(i, p.chunkSize) + p.chunkSize;
    assert Times(s + 1, p.StripeSize()) == Times(s, p.StripeSize()) + p.StripeSize();
    TimesMono(i + 1, p.data, p.chunkSize);
  }

  lemma {:induction false} FullPrefix(p: Profile, len: nat, i: nat, s: nat)
    requires p.Layable() && i < p.data && Times(s, p.StripeSize()) <= len
    ensures PrefixLen(p, len, i, s) == Times(s, p.chunkSize)
  {
    hide CellLen, Profile.StripeSize;
    if s > 0 {
      assert Times(s, p.StripeSize()) == Times(s - 1, p.StripeSize()) + p.StripeSize();
      FullPrefix(p, len, i, s - 1);
      FullCell(p, len, i, s - 1);
    }
  }

  lemma NumStripesIs(p: Profile, len: nat)
    requires p.Layable()
    ensures var S := p.StripeSize();
      S > 0 && NumStripes(p, len) == len / S + (if len % S == 0 then 0 else 1)
  {
    StripeSizePositive(p);
    var S := p.StripeSize();
    DivBounds(len, S);
    hide Profile.StripeSize;
    if len > 0 {
      var q := len / S;
      assert Times(q + 1, S) == Times(q, S) + S;
      DivUnique(len + S - 1, S, if len % S == 0 then q else q + 1);
    }
  }

  lemma StripesGrow(p: Profile, len: nat, more: nat)
    requires p.Layable() && len <= more
    ensures NumStripes(p, len) <= NumStripes(p, more)
  {
    StripeSizePositive(p);
    var S := p.StripeSize();
    if len > 0 {
      DivBounds(len + S - 1, S);
      DivBounds(more + S - 1, S);
      var a, b := (len + S - 1) / S, (more + S - 1) / S;
      hide Profile.StripeSize;
      assert Times(b + 1, S) == Times(b, S) + S;
      if a > b { TimesMono(b + 1, a, S); }
    }
  }

  /** Whatever is no longer than an object that fits, fits. */
  lemma ShorterFits(p: Profile, len: nat, more: nat)
    requires len <= more && Fits(p, more)
    ensures Fits(p, len)
  {
    StripesGrow(p, len, more);
    TimesMono(NumStripes(p, len), NumStripes(p, more), p.chunkSize);
    hide NumStripes, Times;
  }

  /** The closed form is the sum of the cell lengths. */
  lemma DataLenClosedForm(p: Profile, len: nat, i: nat)
    requires p.Layable() && i < p.data && len <= USIZE_MAX
    ensures ExpectedShardLen(p, len, i) == PrefixLen(p, len, i, NumStripes(p, len))
  {
    StripeSizePositive(p);
    var S := p.StripeSize();
    var q := len / S;
    DivBounds(len, S);
    NumStripesIs(p, len);
    hide NumStripes;
    FullPrefix(p, len, i, q);
    FullBytes(p, q);
    hide Profile.StripeSize;
    assert PrefixLen(p, len, i, q + 1) == PrefixLen(p, len, i, q) + CellLen(p, len, i, q);
  }

  lemma FullBytes(p: Profile, q: nat)
    requires p.Layable()
    ensures Times(q, p.chunkSize) <= Times(q, p.StripeSize())
  {
    TimesMono(1, p.data, p.chunkSize);
    TimesGrows(q, p.chunkSize, p.StripeSize());
  }

  /** Cells tile the object: each starts where the one before it ends. */
  lemma CellsAbut(p: Profile, i: nat, s: nat)
    ensures CellOff(p, i + 1, s) == CellOff(p, i, s) + p.chunkSize
    ensures CellOff(p, 0, s + 1) == CellOff(p, p.data, s)
    ensures CellOff(p, 0, 0) == 0
  {}

  /** The stripes cover the object, and each of them holds some of its bytes. */
  lemma AllStripesCover(p: Profile, len: nat)
    requires p.Layable()
    ensures CellOff(p, 0, NumStripes(p, len)) >= len
    ensures forall s :: 0 <= s < NumStripes(p, len) ==> CellOff(p, 0, s) < len && CellLen(p, len, 0, s) > 0
  {
    NumStripesIs(p, len);
    StripeSizePositive(p);
    var S := p.StripeSize();
    DivBounds(len, S);
    hide NumStripes;
    assert Times(len / S + 1, S) == Times(len / S, S) + S;
    forall s | 0 <= s < NumStripes(p, len) ensures CellOff(p, 0, s) < len {
      if s < len / S {
        TimesMono(s + 1, len / S, S);
        assert Times(s + 1, S) == Times(s, S) + S;
      }
      hide Profile.StripeSize;
      assert Times(0, p.chunkSize) == 0;
    }
  }
}
