/** Windowed chunk checksums over an abstract digest: crates/ozone-storage/src/checksum.rs. */
module Checksum {
  import opened Wrappers
  import opened ReedSolomon
  import Layout

  datatype ChecksumType = NoChecksum | Crc32 | Crc32c | Sha256 | Md5

  datatype ChecksumData = ChecksumData(kind: ChecksumType, bytesPerChecksum: nat, checksums: seq<seq<byte>>)

  datatype ChecksumError =
    | Unsupported(kind: ChecksumType)
    | CountMismatch(windows: nat, provided: nat)
    | Mismatch(window: nat)

  /** The digest of one window: CRC32C in the source, any function here. */
  type Digest = seq<byte> -> seq<byte>

  /** An ideal digest tells any two windows apart. */
  ghost predicate Ideal(digest: Digest) {
    forall a, b :: digest(a) == digest(b) ==> a == b
  }

  function AtLeastOne(bpc: nat): nat {
    if bpc == 0 then 1 else bpc
  }

  function WindowCount(len: nat, bpc: nat): nat {
    (len + AtLeastOne(bpc) - 1) / AtLeastOne(bpc)
  }

  /** data cut into windows of n bytes, the last one possibly shorter. */
  function Windows(data: seq<byte>, n: nat): (ws: seq<seq<byte>>)
    requires n > 0
  {
    if |data| == 0 then []
    else if |data| <= n then [data]
    else [data[..n]] + Windows(data[n..], n)
  }

  function Digests(digest: Digest, ws: seq<seq<byte>>): (ds: seq<seq<byte>>)
    ensures |ds| == |ws|
    ensures forall i :: 0 <= i < |ws| ==> ds[i] == digest(ws[i])
  {
    seq(|ws|, i requires 0 <= i < |ws| => digest(ws[i]))
  }

  function Compute(digest: Digest, data: seq<byte>, bpc: nat, kind: ChecksumType): Result<ChecksumData, ChecksumError> {
    match kind
    case NoChecksum => Ok(ChecksumData(NoChecksum, 0, []))
    case Crc32c => Ok(ChecksumData(Crc32c, bpc, Digests(digest, Windows(data, AtLeastOne(bpc)))))
    case _ => Err(Unsupported(kind))
  }

  /** The first window at or after i whose digest differs from the recorded one. */
  function FirstMismatch(digest: Digest, ws: seq<seq<byte>>, recorded: seq<seq<byte>>, i: nat): Option<nat>
    requires i <= |ws| == |recorded|
    decreases |ws| - i
  {
    if i == |ws| then None
    else if digest(ws[i]) != recorded[i] then Some(i)
    else FirstMismatch(digest, ws, recorded, i + 1)
  }

  function VerifyOutcome(digest: Digest, data: seq<byte>, cd: ChecksumData): Result<(), ChecksumError> {
    match cd.kind
    case NoChecksum => Ok(())
    case Crc32c =>
      var ws := Windows(data, AtLeastOne(cd.bytesPerChecksum));
      if |cd.checksums| != |ws| then Err(CountMismatch(|ws|, |cd.checksums|))
      else
        (match FirstMismatch(digest, ws, cd.checksums, 0)
         case Some(w) => Err(Mismatch(w))
         case None => Ok(()))
    case _ => Err(Unsupported(cd.kind))
  }

  lemma {:induction false} WindowsCount(data: seq<byte>, n: nat)
    requires n > 0
    ensures |Windows(data, n)| == (|data| + n - 1) / n
  {
    if |data| > n {
      WindowsCount(data[n..], n);
      DivStep(|data| - 1, n);
    } else if |data| > 0 {
      DivStep(|data| - 1, n);
    }
  }

  lemma DivStep(a: nat, n: nat)
    requires n > 0
    ensures (a + n) / n == a / n + 1
    ensures a < n ==> a / n == 0
  {
    Layout.DivBounds(a, n);
    Layout.DivUnique(a + n, n, a / n + 1);
    if a < n { Layout.DivUnique(a, n, 0); }
  }

  /** Window w of data cut every n bytes. */
  function Window(data: seq<byte>, n: nat, w: nat): (r: seq<byte>)
    requires n > 0
  {
    data[Layout.Min(w * n, |data|)..Layout.Min(w * n + n, |data|)]
  }

  /** The windows are cut every n bytes, the last where the data ends. */
  lemma {:induction false} WindowIs(data: seq<byte>, n: nat, w: nat)
    requires n > 0 && w < |Windows(data, n)|
    ensures w * n < |data| && Windows(data, n)[w] == Window(data, n, w)
  {
    if |data| > n && w > 0 {
      WindowIs(data[n..], n, w - 1);
      assert w * n == (w - 1) * n + n;
      LaterWindow(data, n, (w - 1) * n);
    }
  }

  lemma LaterWindow(data: seq<byte>, n: nat, at: nat)
    requires n <= |data|
    ensures data[n..][Layout.Min(at, |data| - n)..Layout.Min(at + n, |data| - n)] ==
      data[Layout.Min(at + n, |data|)..Layout.Min(at + n + n, |data|)]
  {}

  /** The digest recorded for window w is that of the data's own. */
  predicate Matches(digest: Digest, data: seq<byte>, cd: ChecksumData, w: nat) {
    w < |cd.checksums| && digest(Window(data, AtLeastOne(cd.bytesPerChecksum), w)) == cd.checksums[w]
  }

  /** A checksum is the digests of the data's windows; a kind other than CRC32C has none, or is refused. */
  lemma ComputeIs(digest: Digest, data: seq<byte>, bpc: nat, kind: ChecksumType)
    ensures var r := Compute(digest, data, bpc, kind);
      && (kind.NoChecksum? ==> r == Ok(ChecksumData(NoChecksum, 0, [])))
      && (kind.Crc32c? ==>
            && r.Ok? && r.value.kind == Crc32c && r.value.bytesPerChecksum == bpc
            && |r.value.checksums| == WindowCount(|data|, bpc)
            && forall w: nat :: w < |r.value.checksums| ==> Matches(digest, data, r.value, w))
      && (!kind.NoChecksum? && !kind.Crc32c? ==> r == Err(Unsupported(kind)))
  {
    if kind.Crc32c? {
      var cd := Compute(digest, data, bpc, kind).value;
      WindowsCount(data, AtLeastOne(bpc));
      hide Windows;
      forall w: nat | w < |cd.checksums| ensures Matches(digest, data, cd, w) {
        WindowIs(data, AtLeastOne(bpc), w);
      }
    }
  }

  /** Data verifies when every window matches; else the count is wrong, or the first window that does not is named. */
  lemma VerifyIs(digest: Digest, data: seq<byte>, cd: ChecksumData)
    requires cd.kind.Crc32c?
    ensures var r, n := VerifyOutcome(digest, data, cd), WindowCount(|data|, cd.bytesPerChecksum);
      if |cd.checksums| != n then r == Err(CountMismatch(n, |cd.checksums|))
      else
        && (r.Ok? <==> forall w: nat :: w < n ==> Matches(digest, data, cd, w))
        && (r.Err? ==>
              && r.error.Mismatch? && r.error.window < n && !Matches(digest, data, cd, r.error.window)
              && forall w: nat :: w < r.error.window ==> Matches(digest, data, cd, w))
  {
    var ws := Windows(data, AtLeastOne(cd.bytesPerChecksum));
    WindowsCount(data, AtLeastOne(cd.bytesPerChecksum));
    hide Windows, Window;
    if |cd.checksums| == |ws| {
      FirstMismatchIs(digest, ws, cd.checksums, 0);
      forall w: nat | w < |ws| ensures Matches(digest, data, cd, w) <==> digest(ws[w]) == cd.checksums[w] {
        WindowIs(data, AtLeastOne(cd.bytesPerChecksum), w);
      }
    }
  }

  lemma {:induction false} FirstMismatchIs(digest: Digest, ws: seq<seq<byte>>, recorded: seq<seq<byte>>, i: nat)
    requires i <= |ws| == |recorded| && forall j: nat :: j < i ==> digest(ws[j]) == recorded[j]
    ensures match FirstMismatch(digest, ws, recorded, i)
      case None => forall j: nat :: j < |ws| ==> digest(ws[j]) == recorded[j]
      case Some(w) =>
        && w < |ws| && digest(ws[w]) != recorded[w]
        && forall j: nat :: j < w ==> digest(ws[j]) == recorded[j]
    decreases |ws| - i
  {
    if i < |ws| && digest(ws[i]) == recorded[i] {
      FirstMismatchIs(digest, ws, recorded, i + 1);
    }
  }

  method Verify(digest: Digest, data: seq<byte>, cd: ChecksumData) returns (r: Result<(), ChecksumError>)
    ensures r == VerifyOutcome(digest, data, cd)
    ensures cd.kind.NoChecksum? ==> r == Ok(())
    ensures !cd.kind.NoChecksum? && !cd.kind.Crc32c? ==> r == Err(Unsupported(cd.kind))
  {
    match cd.kind {
      case NoChecksum => return Ok(());
      case Crc32c =>
        var expected := WindowCount(|data|, cd.bytesPerChecksum);
        WindowsCount(data, AtLeastOne(cd.bytesPerChecksum));
        if |cd.checksums| != expected {
          return Err(CountMismatch(expected, |cd.checksums|));
        }
        var ws := Windows(data, AtLeastOne(cd.bytesPerChecksum));
        for w := 0 to |ws|
          invariant FirstMismatch(digest, ws, cd.checksums, 0) == FirstMismatch(digest, ws, cd.checksums, w)
        {
          if cd.checksums[w] != digest(ws[w]) {
            return Err(Mismatch(w));
          }
        }
        return Ok(());
      case _ => return Err(Unsupported(cd.kind));
    }
  }

  lemma {:induction false} NoMismatchMeans(digest: Digest, ws: seq<seq<byte>>, recorded: seq<seq<byte>>, i: nat)
    requires i <= |ws| == |recorded|
    ensures FirstMismatch(digest, ws, recorded, i).None? <==> forall j :: i <= j < |ws| ==> digest(ws[j]) == recorded[j]
    decreases |ws| - i
  {
    if i < |ws| && digest(ws[i]) == recorded[i] {
      NoMismatchMeans(digest, ws, recorded, i + 1);
    }
  }

  /** The windows determine the data. */
  lemma {:induction false} WindowsInjective(a: seq<byte>, b: seq<byte>, n: nat)
    requires n > 0 && Windows(a, n) == Windows(b, n)
    ensures a == b
  {
    if |a| > n && |b| > n {
      var x, y := Windows(a, n), Windows(b, n);
      assert x[0] == a[..n] && y[0] == b[..n];
      assert x[1..] == Windows(a[n..], n) && y[1..] == Windows(b[n..], n);
      WindowsInjective(a[n..], b[n..], n);
      assert a == a[..n] + a[n..] && b == b[..n] + b[n..];
    } else if |a| > n {
      LongHasTwo(a, n);
    } else if |b| > n {
      LongHasTwo(b, n);
    } else {
      assert |a| > 0 ==> Windows(a, n)[0] == a;
      assert |b| > 0 ==> Windows(b, n)[0] == b;
    }
  }

  lemma LongHasTwo(a: seq<byte>, n: nat)
    requires 0 < n < |a|
    ensures |Windows(a, n)| >= 2
  {
    assert |a[n..]| > 0;
    assert |Windows(a[n..], n)| >= 1;
  }

  /** Under an ideal digest, data verifies against a recorded checksum iff it is the data recorded. */
  lemma VerifyIsEquality(digest: Digest, original: seq<byte>, data: seq<byte>, bpc: nat)
    requires Ideal(digest)
    ensures Compute(digest, original, bpc, Crc32c).Ok?
    ensures VerifyOutcome(digest, data, Compute(digest, original, bpc, Crc32c).value).Ok? <==> data == original
  {
    var n := AtLeastOne(bpc);
    var cd := Compute(digest, original, bpc, Crc32c).value;
    var ws, os := Windows(data, n), Windows(original, n);
    if |ws| == |os| {
      NoMismatchMeans(digest, ws, cd.checksums, 0);
      if FirstMismatch(digest, ws, cd.checksums, 0).None? {
        forall j | 0 <= j < |ws| ensures ws[j] == os[j] {
          assert digest(ws[j]) == digest(os[j]);
        }
        assert ws == os;
        WindowsInjective(data, original, n);
      }
    }
  }

  /** Whatever the digest, data verifies against its own checksum. */
  lemma VerifyOwn(digest: Digest, data: seq<byte>, bpc: nat)
    ensures Compute(digest, data, bpc, Crc32c).Ok?
    ensures VerifyOutcome(digest, data, Compute(digest, data, bpc, Crc32c).value).Ok?
  {
    var ws := Windows(data, AtLeastOne(bpc));
    NoMismatchMeans(digest, ws, Digests(digest, ws), 0);
  }
}
