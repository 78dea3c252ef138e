/** The walker that finds the library-constraint blob of a signed arm64 Mach-O executable
    (`constraint_digest` in scripts/macos_signing.py). SHA-256 is a parameter. Every ValueError of the source is
    the one result `Rejected`. */
module ConstraintDigest {
  import opened Sets

  type Byte = n: int | 0 <= n < 256

  datatype Result<D> = Accepted(digest: D) | Rejected

  const MAX_IMAGE: nat := 256 * 1024 * 1024
  const MAX_SIGNATURE: nat := 16 * 1024 * 1024
  const MACHO_MAGIC: nat := 0xfeedfacf
  const ARM64: nat := 0x0100000c
  const EXECUTABLE: nat := 2
  const SIGNATURE_COMMAND: nat := 0x1d
  const SUPERBLOB_MAGIC: nat := 0xfade0cc0
  const CONSTRAINT_SLOT: nat := 11

  predicate HasWord(data: seq<Byte>, at: int) { 0 <= at && at + 4 <= |data| }

  function Word(a: int, b: int, c: int, d: int): int { a + 0x100 * b + 0x10000 * c + 0x1000000 * d }

  function Le(data: seq<Byte>, at: int): nat
    requires HasWord(data, at)
  {
    Word(data[at], data[at + 1], data[at + 2], data[at + 3])
  }

  function Be(data: seq<Byte>, at: int): nat
    requires HasWord(data, at)
  {
    Word(data[at + 3], data[at + 2], data[at + 1], data[at])
  }

  // ----- The format, part one: load commands -----

  predicate Header(image: seq<Byte>)
  {
    && 24 <= |image| <= MAX_IMAGE
    && Le(image, 0) == MACHO_MAGIC && Le(image, 4) == ARM64 && Le(image, 12) == EXECUTABLE
    && Le(image, 16) > 0 && 32 + Le(image, 20) <= |image|
  }

  function CommandCount(image: seq<Byte>): nat requires Header(image) { Le(image, 16) }

  function CommandsEnd(image: seq<Byte>): nat requires Header(image) { 32 + Le(image, 20) }

  predicate Command(image: seq<Byte>, at: int, end: int)
    requires end <= |image|
  {
    && 32 <= at && at + 8 <= end
    && 8 <= Le(image, at + 4) && Le(image, at + 4) % 8 == 0 && at + Le(image, at + 4) <= end
  }

  /** Offsets of consecutive load commands, from the end of the header. */
  ghost predicate Chain(image: seq<Byte>, cuts: seq<int>, end: int)
    requires end <= |image|
  {
    && cuts != [] && cuts[0] == 32
    && (forall i | 0 <= i < |cuts| - 1 :: Command(image, cuts[i], end))
    && (forall i | 0 <= i < |cuts| - 1 :: Adjacent(image, cuts, i))
  }

  /** The next command begins where command `i` ends. */
  ghost predicate Adjacent(image: seq<Byte>, cuts: seq<int>, i: int)
    requires 0 <= i < |cuts| - 1
  {
    HasWord(image, cuts[i] + 4) && cuts[i + 1] == cuts[i] + Le(image, cuts[i] + 4)
  }

  lemma ChainPrefix(image: seq<Byte>, cuts: seq<int>, n: int, end: int)
    requires end <= |image| && Chain(image, cuts, end) && 0 < n <= |cuts|
    ensures Chain(image, cuts[..n], end)
  {
    forall i | 0 <= i < n - 1 ensures Adjacent(image, cuts[..n], i) {
      assert Adjacent(image, cuts, i);
    }
  }

  /** The commands tile the region exactly. */
  ghost predicate Tiling(image: seq<Byte>, cuts: seq<int>)
    requires Header(image)
  {
    && |cuts| == CommandCount(image) + 1
    && Chain(image, cuts, CommandsEnd(image))
    && cuts[|cuts| - 1] == CommandsEnd(image)
  }

  predicate IsSignatureCommand(image: seq<Byte>, at: int)
  {
    HasWord(image, at) && Le(image, at) == SIGNATURE_COMMAND
  }

  /** The signature a command points to lies behind the commands and inside the image. */
  predicate Places(image: seq<Byte>, at: int, end: int)
  {
    && 0 <= at && at + 16 <= |image| && Le(image, at + 4) == 16
    && end <= Le(image, at + 8) && Le(image, at + 12) <= MAX_SIGNATURE
    && Le(image, at + 8) + Le(image, at + 12) <= |image|
  }

  /** Exactly one command is a signature command, and it places the signature at `start`. */
  ghost predicate OnlySignature(image: seq<Byte>, cuts: seq<int>, index: int, start: int, length: int)
    requires Header(image) && Tiling(image, cuts)
  {
    var end := CommandsEnd(image);
    && 0 <= index < |cuts| - 1
    && IsSignatureCommand(image, cuts[index])
    && Places(image, cuts[index], end)
    && start == Le(image, cuts[index] + 8) && length == Le(image, cuts[index] + 12)
    && forall j | 0 <= j < |cuts| - 1 && j != index :: !IsSignatureCommand(image, cuts[j])
  }

  ghost predicate SignatureAt(image: seq<Byte>, start: int, length: int)
  {
    && Header(image)
    && exists cuts, index :: Tiling(image, cuts) && OnlySignature(image, cuts, index, start, length)
  }

  lemma {:induction false} ChainsAgree(image: seq<Byte>, a: seq<int>, b: seq<int>, end: int)
    requires end <= |image| && Chain(image, a, end) && Chain(image, b, end) && |a| <= |b|
    ensures a == b[..|a|]
  {
    if |a| > 1 {
      var n := |a| - 1;
      ChainPrefix(image, a, n, end);
      ChainsAgree(image, a[..n], b, end);
      assert a[n - 1] == a[..n][n - 1] == b[n - 1];
      assert Adjacent(image, a, n - 1) && Adjacent(image, b, n - 1);
      assert b[..|a|] == b[..n] + [b[n]];
      assert a == a[..n] + [a[n]];
    }
  }

  lemma {:induction false} ChainLength(image: seq<Byte>, cuts: seq<int>, end: int)
    requires end <= |image| && Chain(image, cuts, end)
    ensures 32 + 8 * (|cuts| - 1) <= cuts[|cuts| - 1]
  {
    if |cuts| > 1 {
      ChainPrefix(image, cuts, |cuts| - 1, end);
      ChainLength(image, cuts[..|cuts| - 1], end);
      assert Adjacent(image, cuts, |cuts| - 2);
    }
  }

  lemma TilingContinues(image: seq<Byte>, cuts: seq<int>, tiling: seq<int>)
    requires Header(image) && Chain(image, cuts, CommandsEnd(image)) && |cuts| <= CommandCount(image)
    requires Tiling(image, tiling)
    ensures Command(image, cuts[|cuts| - 1], CommandsEnd(image))
  {
    ChainsAgree(image, cuts, tiling, CommandsEnd(image));
    assert tiling[|cuts| - 1] == cuts[|cuts| - 1];
  }

  /** A chain that cannot be continued is not the start of any tiling. */
  lemma DeadEnd(image: seq<Byte>, cuts: seq<int>)
    requires Header(image) && Chain(image, cuts, CommandsEnd(image)) && |cuts| <= CommandCount(image)
    requires !Command(image, cuts[|cuts| - 1], CommandsEnd(image))
    ensures forall start, length :: !SignatureAt(image, start, length)
  {
    forall tiling | Tiling(image, tiling) ensures false {
      TilingContinues(image, cuts, tiling);
    }
  }

  lemma SignatureIsTheOne(image: seq<Byte>, cuts: seq<int>, k: int, tiling: seq<int>, index: int, start: int,
                          length: int)
    requires Header(image) && Chain(image, cuts, CommandsEnd(image)) && |cuts| <= CommandCount(image) + 1
    requires 0 <= k < |cuts| - 1 && IsSignatureCommand(image, cuts[k])
    requires Tiling(image, tiling) && OnlySignature(image, tiling, index, start, length)
    ensures index == k && Places(image, cuts[k], CommandsEnd(image))
  {
    ChainsAgree(image, cuts, tiling, CommandsEnd(image));
    assert tiling[k] == cuts[k];
  }

  /** A signature command that places nothing, or a second one, spoils every tiling. */
  lemma BadSignature(image: seq<Byte>, cuts: seq<int>, first: int, last: int)
    requires Header(image) && Chain(image, cuts, CommandsEnd(image)) && |cuts| <= CommandCount(image) + 1
    requires 0 <= first <= last < |cuts| - 1
    requires IsSignatureCommand(image, cuts[first])
    requires IsSignatureCommand(image, cuts[last])
    requires first != last || !Places(image, cuts[last], CommandsEnd(image))
    ensures forall start, length :: !SignatureAt(image, start, length)
  {
    forall tiling, index, start, length | Tiling(image, tiling) && OnlySignature(image, tiling, index, start, length)
      ensures false
    {
      SignatureIsTheOne(image, cuts, first, tiling, index, start, length);
      SignatureIsTheOne(image, cuts, last, tiling, index, start, length);
    }
  }

  /** What the first loop knows: the commands so far, and the only signature command among them if any. */
  ghost predicate Scanned(image: seq<Byte>, cuts: seq<int>, found: bool, index: int, start: int, length: int)
    requires Header(image)
  {
    var end := CommandsEnd(image);
    && Chain(image, cuts, end)
    && (found ==>
          && 0 <= index < |cuts| - 1
          && IsSignatureCommand(image, cuts[index]) && Places(image, cuts[index], end)
          && start == Le(image, cuts[index] + 8) && length == Le(image, cuts[index] + 12))
    && (forall j | 0 <= j < |cuts| - 1 && !(found && j == index) :: !IsSignatureCommand(image, cuts[j]))
  }

  lemma ChainExtends(image: seq<Byte>, cuts: seq<int>, end: int)
    requires end <= |image| && Chain(image, cuts, end) && Command(image, cuts[|cuts| - 1], end)
    ensures Chain(image, cuts + [cuts[|cuts| - 1] + Le(image, cuts[|cuts| - 1] + 4)], end)
  {
    var longer := cuts + [cuts[|cuts| - 1] + Le(image, cuts[|cuts| - 1] + 4)];
    forall i | 0 <= i < |longer| - 1 ensures Adjacent(image, longer, i) {
      assert i < |cuts| - 1 ==> Adjacent(image, cuts, i);
    }
  }

  lemma ScanPasses(image: seq<Byte>, cuts: seq<int>, found: bool, index: int, start: int, length: int)
    requires Header(image) && Scanned(image, cuts, found, index, start, length)
    requires Command(image, cuts[|cuts| - 1], CommandsEnd(image))
    requires !IsSignatureCommand(image, cuts[|cuts| - 1])
    ensures Scanned(image, cuts + [cuts[|cuts| - 1] + Le(image, cuts[|cuts| - 1] + 4)], found, index, start, length)
  {
    ChainExtends(image, cuts, CommandsEnd(image));
  }

  lemma ScanFinds(image: seq<Byte>, cuts: seq<int>, index: int, start: int, length: int)
    requires Header(image) && Scanned(image, cuts, false, index, start, length)
    requires Command(image, cuts[|cuts| - 1], CommandsEnd(image))
    requires IsSignatureCommand(image, cuts[|cuts| - 1])
    requires Places(image, cuts[|cuts| - 1], CommandsEnd(image))
    ensures var at := cuts[|cuts| - 1];
            Scanned(image, cuts + [at + Le(image, at + 4)], true, |cuts| - 1, Le(image, at + 8), Le(image, at + 12))
  {
    ChainExtends(image, cuts, CommandsEnd(image));
  }

  lemma ScanRejects(image: seq<Byte>, cuts: seq<int>, found: bool, index: int, start: int, length: int)
    requires Header(image) && Scanned(image, cuts, found, index, start, length)
    requires |cuts| <= CommandCount(image) && Command(image, cuts[|cuts| - 1], CommandsEnd(image))
    requires IsSignatureCommand(image, cuts[|cuts| - 1])
    requires found || !Places(image, cuts[|cuts| - 1], CommandsEnd(image))
    ensures forall s, l :: !SignatureAt(image, s, l)
  {
    ChainExtends(image, cuts, CommandsEnd(image));
    var longer := cuts + [cuts[|cuts| - 1] + Le(image, cuts[|cuts| - 1] + 4)];
    BadSignature(image, longer, if found then index else |cuts| - 1, |cuts| - 1);
  }

  lemma ScanEnds(image: seq<Byte>, cuts: seq<int>, found: bool, index: int, start: int, length: int)
    requires Header(image) && Scanned(image, cuts, found, index, start, length) && |cuts| == CommandCount(image) + 1
    ensures found && cuts[|cuts| - 1] == CommandsEnd(image) ==> SignatureAt(image, start, length)
    ensures !(found && cuts[|cuts| - 1] == CommandsEnd(image)) ==> forall s, l :: !SignatureAt(image, s, l)
  {
    if found && cuts[|cuts| - 1] == CommandsEnd(image) {
      assert Tiling(image, cuts) && OnlySignature(image, cuts, index, start, length);
    } else {
      forall tiling, i, s, l | Tiling(image, tiling) && OnlySignature(image, tiling, i, s, l)
        ensures tiling == cuts
      {
        ChainsAgree(image, cuts, tiling, CommandsEnd(image));
      }
    }
  }

  /** The first loop of the source: walk the load commands and note the signature's place. */
  method FindSignature(image: seq<Byte>) returns (found: bool, start: int, length: int)
    requires Header(image)
    ensures found ==> SignatureAt(image, start, length)
    ensures !found ==> forall s, l :: !SignatureAt(image, s, l)
  {
    var count, end := Le(image, 16), 32 + Le(image, 20);
    found, start, length := false, 0, 0;
    var offset := 32;
    ghost var cuts, index := [32], -1;
    for k := 0 to count
      invariant Scanned(image, cuts, found, index, start, length)
      invariant |cuts| == k + 1 && cuts[k] == offset && 32 <= offset
    {
      if !Command(image, offset, end) {
        DeadEnd(image, cuts); // truncated or invalid load command
        return false, 0, 0;
      }
      var command, size := Le(image, offset), Le(image, offset + 4);
      if command == SIGNATURE_COMMAND {
        if found || size != 16 {
          ScanRejects(image, cuts, found, index, start, length);
          return false, 0, 0;
        }
        var at, bytes := Le(image, offset + 8), Le(image, offset + 12);
        if at < end || bytes > MAX_SIGNATURE || at + bytes > |image| {
          ScanRejects(image, cuts, found, index, start, length);
          return false, 0, 0;
        }
        ScanFinds(image, cuts, index, start, length);
        found, start, length, index := true, at, bytes, k;
      } else {
        ScanPasses(image, cuts, found, index, start, length);
      }
      cuts := cuts + [offset + size];
      offset := offset + size;
    }
    ScanEnds(image, cuts, found, index, start, length);
    if offset != end || !found {
      return false, 0, 0;
    }
  }

  // ----- The format, part two: the signature's table of blobs -----

  predicate Table(sig: seq<Byte>)
  {
    && 12 <= |sig| && Be(sig, 0) == SUPERBLOB_MAGIC && 1 <= Be(sig, 8) <= 64
    && 12 + Be(sig, 8) * 8 <= Be(sig, 4) <= |sig|
  }

  function BlobCount(sig: seq<Byte>): nat requires Table(sig) { Be(sig, 8) }

  function TableEnd(sig: seq<Byte>): nat requires Table(sig) { 12 + 8 * Be(sig, 8) }

  function SigLength(sig: seq<Byte>): nat requires Table(sig) { Be(sig, 4) }

  function Slot(sig: seq<Byte>, i: int): nat
    requires Table(sig) && 0 <= i < BlobCount(sig)
  {
    Be(sig, 12 + i * 8)
  }

  function Start(sig: seq<Byte>, i: int): nat
    requires Table(sig) && 0 <= i < BlobCount(sig)
  {
    Be(sig, 16 + i * 8)
  }

  /** A blob begins behind the table, is at least a blob header long, and ends inside the signature. */
  predicate BlobInBounds(sig: seq<Byte>, i: int)
    requires Table(sig) && 0 <= i < BlobCount(sig)
  {
    var start := Start(sig, i);
    && TableEnd(sig) <= start && start + 8 <= |sig|
    && 8 <= Be(sig, start + 4) && start + Be(sig, start + 4) <= SigLength(sig)
  }

  function Size(sig: seq<Byte>, i: int): nat
    requires Table(sig) && 0 <= i < BlobCount(sig) && BlobInBounds(sig, i)
  {
    Be(sig, Start(sig, i) + 4)
  }

  function Blob(sig: seq<Byte>, i: int): seq<Byte>
    requires Table(sig) && 0 <= i < BlobCount(sig) && BlobInBounds(sig, i)
  {
    sig[Start(sig, i)..Start(sig, i) + Size(sig, i)]
  }

  predicate Apart(sig: seq<Byte>, i: int, j: int)
    requires Table(sig) && 0 <= i < BlobCount(sig) && 0 <= j < BlobCount(sig)
    requires BlobInBounds(sig, i) && BlobInBounds(sig, j)
  {
    && Slot(sig, i) != Slot(sig, j)
    && (Start(sig, i) + Size(sig, i) <= Start(sig, j) || Start(sig, j) + Size(sig, j) <= Start(sig, i))
  }

  /** The first `n` entries are blobs in bounds, in distinct slots and in disjoint ranges. */
  ghost predicate Entries(sig: seq<Byte>, n: int)
    requires Table(sig) && 0 <= n <= BlobCount(sig)
  {
    && (forall i | 0 <= i < n :: BlobInBounds(sig, i))
    && (forall i, j | 0 <= i < j < n :: Apart(sig, i, j))
  }

  /** `sig` is well formed and entry `i` is its library constraint. */
  ghost predicate ConstraintAt(sig: seq<Byte>, i: int)
  {
    && Table(sig) && Entries(sig, BlobCount(sig))
    && 0 <= i < BlobCount(sig) && Slot(sig, i) == CONSTRAINT_SLOT
  }

  datatype Entry = Entry(slot: int, start: int, end: int)

  ghost predicate Recorded(sig: seq<Byte>, entries: seq<Entry>)
    requires Table(sig) && |entries| <= BlobCount(sig) && Entries(sig, |entries|)
  {
    forall k | 0 <= k < |entries| ::
      entries[k] == Entry(Slot(sig, k), Start(sig, k), Start(sig, k) + Size(sig, k))
  }

  predicate Clashes(entries: seq<Entry>, slot: int, start: int, size: int)
  {
    exists k | 0 <= k < |entries| ::
      slot == entries[k].slot || (start < entries[k].end && start + size > entries[k].start)
  }

  lemma NoClashMeansApart(sig: seq<Byte>, entries: seq<Entry>)
    requires Table(sig) && |entries| < BlobCount(sig) && Entries(sig, |entries|) && Recorded(sig, entries)
    requires BlobInBounds(sig, |entries|)
    ensures var n := |entries|;
            Entries(sig, n + 1) <==> !Clashes(entries, Slot(sig, n), Start(sig, n), Size(sig, n))
  {
    var n := |entries|;
    if Clashes(entries, Slot(sig, n), Start(sig, n), Size(sig, n)) {
      var k :| 0 <= k < |entries| &&
        (Slot(sig, n) == entries[k].slot ||
          (Start(sig, n) < entries[k].end && Start(sig, n) + Size(sig, n) > entries[k].start));
      assert !Apart(sig, k, n);
    } else {
      forall i | 0 <= i < n ensures Apart(sig, i, n) {
        assert entries[i].slot == Slot(sig, i);
      }
    }
  }

  /** The second loop of the source: check every entry and remember the constraint. */
  method FindConstraint(sig: seq<Byte>) returns (found: bool, index: nat)
    requires Table(sig)
    ensures found ==> ConstraintAt(sig, index)
    ensures !found ==> forall i :: !ConstraintAt(sig, i)
  {
    found, index := false, 0;
    var length, count := Be(sig, 4), Be(sig, 8);
    var entries := [];
    for i := 0 to count
      invariant |entries| == i && Entries(sig, i) && Recorded(sig, entries)
      invariant found ==> index < i && Slot(sig, index) == CONSTRAINT_SLOT
      invariant !found ==> forall k | 0 <= k < i :: Slot(sig, k) != CONSTRAINT_SLOT
    {
      var slot, start := Be(sig, 12 + i * 8), Be(sig, 16 + i * 8);
      if !HasWord(sig, start + 4) {
        assert !BlobInBounds(sig, i);
        return false, 0;
      }
      var size := Be(sig, start + 4);
      if start < 12 + count * 8 || size < 8 || start + size > length {
        assert !BlobInBounds(sig, i);
        return false, 0;
      }
      NoClashMeansApart(sig, entries);
      if Clashes(entries, slot, start, size) {
        return false, 0;
      }
      entries := entries + [Entry(slot, start, start + size)];
      if slot == CONSTRAINT_SLOT {
        found, index := true, i;
      }
    }
  }

  predicate InImage(image: seq<Byte>, start: int, length: int)
  {
    0 <= start && 0 <= length && start + length <= |image|
  }

  function Slice(image: seq<Byte>, start: int, length: int): seq<Byte>
    requires InImage(image, start, length)
  {
    image[start..start + length]
  }

  ghost predicate AcceptsAt(image: seq<Byte>, start: int, length: int, i: int, blob: seq<Byte>)
  {
    && SignatureAt(image, start, length) && InImage(image, start, length)
    && ConstraintAt(Slice(image, start, length), i)
    && blob == Blob(Slice(image, start, length), i)
  }

  /** The whole format: `blob` is the library constraint of the image. */
  ghost predicate Accepts(image: seq<Byte>, blob: seq<Byte>)
  {
    exists start, length, i :: AcceptsAt(image, start, length, i, blob)
  }

  lemma SignatureInImage(image: seq<Byte>, start: int, length: int)
    requires SignatureAt(image, start, length)
    ensures InImage(image, start, length) && CommandsEnd(image) <= start
  {
  }

  /** A word has one spelling in bytes. */
  lemma WordBytes(a: Byte, b: Byte, c: Byte, d: Byte, p: Byte, q: Byte, r: Byte, s: Byte)
    requires Word(a, b, c, d) == Word(p, q, r, s)
    ensures a == p && b == q && c == r && d == s
  {
  }

  lemma HeaderBytes(image: seq<Byte>)
    requires Header(image)
    ensures image[..4] == [0xcf, 0xfa, 0xed, 0xfe] && image[4..8] == [0x0c, 0, 0, 1] && image[12..16] == [2, 0, 0, 0]
    ensures |image| <= 0x10000000
  {
    WordBytes(image[0], image[1], image[2], image[3], 0xcf, 0xfa, 0xed, 0xfe);
    WordBytes(image[4], image[5], image[6], image[7], 0x0c, 0, 0, 1);
    WordBytes(image[12], image[13], image[14], image[15], 2, 0, 0, 0);
  }

  /** Byte for byte, an accepted image begins as a thin arm64 executable does, its signature begins as an embedded
      signature does, and both are within their limits. */
  lemma AcceptedImageBegins(image: seq<Byte>, start: int, length: int, i: int, blob: seq<Byte>)
    requires AcceptsAt(image, start, length, i, blob)
    ensures 32 <= start && 0 <= length <= 0x1000000 && start + length <= |image| <= 0x10000000
    ensures image[..4] == [0xcf, 0xfa, 0xed, 0xfe] && image[4..8] == [0x0c, 0, 0, 1] && image[12..16] == [2, 0, 0, 0]
    ensures 20 <= length && image[start..start + 4] == [0xfa, 0xde, 0x0c, 0xc0]
    ensures 1 <= Be(image[start..start + length], 8) <= 64
  {
    SignatureInImage(image, start, length);
    HeaderBytes(image);
    var sig := Slice(image, start, length);
    WordBytes(sig[3], sig[2], sig[1], sig[0], 0xc0, 0x0c, 0xde, 0xfa);
    assert image[start..start + 4] == [sig[0], sig[1], sig[2], sig[3]];
  }

  lemma TilingsAgree(image: seq<Byte>, a: seq<int>, b: seq<int>)
    requires Header(image) && Tiling(image, a) && Tiling(image, b)
    ensures a == b
  {
    ChainsAgree(image, a, b, CommandsEnd(image));
  }

  lemma OnePlacePerTiling(image: seq<Byte>, cuts: seq<int>, i: int, s: int, l: int, j: int, t: int, m: int)
    requires Header(image) && Tiling(image, cuts)
    requires OnlySignature(image, cuts, i, s, l) && OnlySignature(image, cuts, j, t, m)
    ensures s == t && l == m
  {
    assert i == j;
  }

  lemma SignatureUnique(image: seq<Byte>, s: int, l: int, t: int, m: int)
    requires SignatureAt(image, s, l) && SignatureAt(image, t, m)
    ensures s == t && l == m
  {
    var a, i :| Tiling(image, a) && OnlySignature(image, a, i, s, l);
    var b, j :| Tiling(image, b) && OnlySignature(image, b, j, t, m);
    TilingsAgree(image, a, b);
    OnePlacePerTiling(image, a, i, s, l, j, t, m);
  }

  lemma SlotsDiffer(sig: seq<Byte>, i: int, j: int)
    requires Table(sig) && Entries(sig, BlobCount(sig)) && 0 <= i < BlobCount(sig) && 0 <= j < BlobCount(sig)
    ensures i != j ==> Slot(sig, i) != Slot(sig, j)
  {
    assert i < j ==> Apart(sig, i, j);
    assert j < i ==> Apart(sig, j, i);
  }

  /** An image has at most one library constraint. */
  lemma AcceptedBlobUnique(image: seq<Byte>, blob: seq<Byte>, other: seq<Byte>)
    requires Accepts(image, blob) && Accepts(image, other)
    ensures blob == other
  {
    var s, l, i :| AcceptsAt(image, s, l, i, blob);
    var t, m, j :| AcceptsAt(image, t, m, j, other);
    SignatureUnique(image, s, l, t, m);
    SlotsDiffer(Slice(image, s, l), i, j);
  }

  /** A tiling needs eight bytes a command, so the source's early count check refuses nothing it should take. */
  lemma TooManyCommands(image: seq<Byte>)
    requires Header(image) && CommandCount(image) > (CommandsEnd(image) - 32) / 8
    ensures forall s, l :: !SignatureAt(image, s, l)
  {
    forall cuts | Tiling(image, cuts) ensures false {
      ChainLength(image, cuts, CommandsEnd(image));
    }
  }

  /** `constraint_digest` accepts exactly the images of the format and hashes their one library constraint. */
  method Digest<D>(image: seq<Byte>, sha256: seq<Byte> -> D) returns (r: Result<D>)
    ensures r.Accepted? ==> exists blob :: Accepts(image, blob) && r.digest == sha256(blob)
    ensures r.Rejected? ==> forall blob :: !Accepts(image, blob)
  {
    assert !Header(image) ==> forall s, l, i, blob :: !AcceptsAt(image, s, l, i, blob);
    if |image| > MAX_IMAGE || !HasWord(image, 0) || Le(image, 0) != MACHO_MAGIC
       || !HasWord(image, 4) || Le(image, 4) != ARM64 || !HasWord(image, 12) || Le(image, 12) != EXECUTABLE {
      return Rejected;
    }
    if !HasWord(image, 16) || !HasWord(image, 20) {
      return Rejected;
    }
    var count, end := Le(image, 16), 32 + Le(image, 20);
    if count == 0 || end > |image| {
      return Rejected;
    }
    if count > (end - 32) / 8 {
      TooManyCommands(image);
      return Rejected;
    }
    var signed, start, length := FindSignature(image);
    if !signed {
      return Rejected;
    }
    SignatureInImage(image, start, length);
    r := TableDigest(Slice(image, start, length), sha256);
    if r.Rejected? {
      NotAccepted(image, start, length);
    } else {
      ghost var i :| ConstraintAt(Slice(image, start, length), i)
                     && r.digest == sha256(Blob(Slice(image, start, length), i));
      assert AcceptsAt(image, start, length, i, Blob(Slice(image, start, length), i));
    }
  }

  lemma NotAccepted(image: seq<Byte>, start: int, length: int)
    requires SignatureAt(image, start, length) && InImage(image, start, length)
    requires forall i :: !ConstraintAt(Slice(image, start, length), i)
    ensures forall blob :: !Accepts(image, blob)
  {
    forall blob, s, l, i | AcceptsAt(image, s, l, i, blob) ensures s == start && l == length {
      SignatureUnique(image, s, l, start, length);
    }
  }

  method TableDigest<D>(sig: seq<Byte>, sha256: seq<Byte> -> D) returns (r: Result<D>)
    ensures r.Accepted? ==> exists i :: ConstraintAt(sig, i) && r.digest == sha256(Blob(sig, i))
    ensures r.Rejected? ==> forall i :: !ConstraintAt(sig, i)
  {
    if !HasWord(sig, 4) || !HasWord(sig, 8) {
      return Rejected;
    }
    var length, count := Be(sig, 4), Be(sig, 8);
    if Be(sig, 0) != SUPERBLOB_MAGIC || !(1 <= count <= 64) || !(12 + count * 8 <= length <= |sig|) {
      return Rejected;
    }
    var found, index := FindConstraint(sig);
    if !found {
      return Rejected;
    }
    return Accepted(sha256(Blob(sig, index)));
  }

  // ----- Consequences -----

  /** The positions from `a` up to `b`. */
  function Range(a: int, b: int): (r: set<int>)
    requires a <= b
    ensures forall x :: x in r <==> a <= x < b
    ensures |r| == b - a
    decreases b - a
  {
    if a == b then {} else {b - 1} + Range(a, b - 1)
  }

  lemma DisjointSize(a: set<int>, b: set<int>)
    requires a !! b
    ensures |a + b| == |a| + |b|
  {
  }

  datatype Span = Span(start: int, size: nat)

  predicate Within(p: Span, lo: int, hi: int) { lo <= p.start && p.start + p.size <= hi }

  predicate Disjoint(p: Span, q: Span) { p.start + p.size <= q.start || q.start + q.size <= p.start }

  ghost predicate SpansApart(spans: seq<Span>, lo: int, hi: int)
  {
    && (forall i | 0 <= i < |spans| :: Within(spans[i], lo, hi))
    && PairwiseDisjoint(spans)
  }

  function TotalSize(spans: seq<Span>): nat
  {
    if spans == [] then 0 else TotalSize(spans[..|spans| - 1]) + spans[|spans| - 1].size
  }

  function Positions(p: Span): (r: set<int>)
    ensures |r| == p.size
  {
    Range(p.start, p.start + p.size)
  }

  function Covered(spans: seq<Span>): set<int>
  {
    if spans == [] then {} else Covered(spans[..|spans| - 1]) + Positions(spans[|spans| - 1])
  }

  lemma {:induction false} CoveredAvoids(spans: seq<Span>, p: Span)
    requires forall i | 0 <= i < |spans| :: Disjoint(spans[i], p)
    ensures Covered(spans) !! Positions(p)
  {
    if spans != [] {
      CoveredAvoids(spans[..|spans| - 1], p);
      assert Disjoint(spans[|spans| - 1], p);
    }
  }

  lemma {:induction false} CoveredWithin(spans: seq<Span>, lo: int, hi: int)
    requires lo <= hi && forall i | 0 <= i < |spans| :: Within(spans[i], lo, hi)
    ensures Covered(spans) <= Range(lo, hi)
  {
    if spans != [] {
      CoveredWithin(spans[..|spans| - 1], lo, hi);
      assert Within(spans[|spans| - 1], lo, hi);
    }
  }

  predicate PairwiseDisjoint(spans: seq<Span>)
  {
    forall i, j | 0 <= i < j < |spans| :: Disjoint(spans[i], spans[j])
  }

  lemma LastIsApart(spans: seq<Span>)
    requires spans != [] && PairwiseDisjoint(spans)
    ensures PairwiseDisjoint(spans[..|spans| - 1])
    ensures Covered(spans[..|spans| - 1]) !! Positions(spans[|spans| - 1])
  {
    CoveredAvoids(spans[..|spans| - 1], spans[|spans| - 1]);
  }

  /** Disjoint spans cover as many positions as their sizes sum to. */
  lemma {:induction false} CoveredSize(spans: seq<Span>)
    requires PairwiseDisjoint(spans)
    ensures |Covered(spans)| == TotalSize(spans)
  {
    if spans != [] {
      LastIsApart(spans);
      CoveredSize(spans[..|spans| - 1]);
      DisjointSize(Covered(spans[..|spans| - 1]), Positions(spans[|spans| - 1]));
    }
  }

  lemma SpansPack(spans: seq<Span>, lo: int, hi: int)
    requires lo <= hi && SpansApart(spans, lo, hi)
    ensures TotalSize(spans) <= hi - lo
  {
    CoveredSize(spans);
    CoveredWithin(spans, lo, hi);
    SubsetSize(Covered(spans), Range(lo, hi));
  }

  ghost function BlobSpan(sig: seq<Byte>, i: int): Span
    requires Table(sig) && 0 <= i < BlobCount(sig) && BlobInBounds(sig, i)
  {
    Span(Start(sig, i), Size(sig, i))
  }

  ghost function BlobSpans(sig: seq<Byte>, n: nat): (spans: seq<Span>)
    requires Table(sig) && n <= BlobCount(sig) && forall i | 0 <= i < n :: BlobInBounds(sig, i)
    ensures |spans| == n && forall i | 0 <= i < n :: spans[i] == BlobSpan(sig, i)
  {
    if n == 0 then [] else BlobSpans(sig, n - 1) + [BlobSpan(sig, n - 1)]
  }

  /** The blobs of a well-formed signature fit between its table and its end without overlap. */
  lemma BlobsPack(sig: seq<Byte>)
    requires Table(sig) && Entries(sig, BlobCount(sig))
    ensures TotalSize(BlobSpans(sig, BlobCount(sig))) <= SigLength(sig) - 12 - 8 * BlobCount(sig)
  {
    var spans := BlobSpans(sig, BlobCount(sig));
    forall i, j | 0 <= i < j < |spans| ensures Disjoint(spans[i], spans[j]) {
      assert Apart(sig, i, j);
    }
    forall i | 0 <= i < |spans| ensures Within(spans[i], TableEnd(sig), SigLength(sig)) {
      assert BlobInBounds(sig, i);
    }
    SpansPack(spans, TableEnd(sig), SigLength(sig));
  }

  /** `perm` and `inv` are inverse orderings of `0..n`. */
  ghost predicate Reorders(perm: seq<int>, inv: seq<int>, n: int)
  {
    && |perm| == n && |inv| == n
    && (forall i | 0 <= i < n :: 0 <= perm[i] < n && inv[perm[i]] == i)
    && (forall i | 0 <= i < n :: 0 <= inv[i] < n && perm[inv[i]] == i)
  }

  /** `other` is `sig` with its index entries reordered and every other byte the same. */
  ghost predicate SameButReordered(sig: seq<Byte>, other: seq<Byte>, perm: seq<int>, inv: seq<int>)
  {
    && Table(sig) && |other| == |sig| && other[..12] == sig[..12] && other[TableEnd(sig)..] == sig[TableEnd(sig)..]
    && Table(other) && Reorders(perm, inv, BlobCount(sig))
    && BlobCount(other) == BlobCount(sig)
    && forall i | 0 <= i < BlobCount(sig) ::
         Slot(other, i) == Slot(sig, perm[i]) && Start(other, i) == Start(sig, perm[i])
  }

  lemma SameWords(a: seq<Byte>, b: seq<Byte>, from: nat, at: int)
    requires |a| == |b| && from <= |a| && a[from..] == b[from..] && from <= at && at + 4 <= |a|
    ensures Be(a, at) == Be(b, at)
  {
    assert forall k | from <= k < |a| :: a[k] == a[from..][k - from] && b[k] == b[from..][k - from];
  }

  lemma SameSlices(a: seq<Byte>, b: seq<Byte>, from: nat, lo: int, hi: int)
    requires |a| == |b| && from <= lo <= hi <= |a| && a[from..] == b[from..]
    ensures a[lo..hi] == b[lo..hi]
  {
    forall k | lo <= k < hi ensures a[k] == b[k]
    {
      assert a[k] == a[from..][k - from] && b[k] == b[from..][k - from];
    }
  }

  lemma SameLength(sig: seq<Byte>, other: seq<Byte>)
    requires 12 <= |sig| && |other| == |sig| && other[..12] == sig[..12]
    ensures Be(other, 4) == Be(sig, 4)
  {
    assert forall k | 0 <= k < 12 :: other[k] == other[..12][k] && sig[k] == sig[..12][k];
  }

  lemma ReorderedBounds(sig: seq<Byte>, other: seq<Byte>, perm: seq<int>, inv: seq<int>, i: int)
    requires SameButReordered(sig, other, perm, inv) && 0 <= i < BlobCount(sig)
    requires BlobInBounds(sig, perm[i])
    ensures BlobInBounds(other, i) && Size(other, i) == Size(sig, perm[i])
  {
    SameWords(sig, other, TableEnd(sig), Start(sig, perm[i]) + 4);
    SameLength(sig, other);
  }

  lemma ReorderedBlob(sig: seq<Byte>, other: seq<Byte>, perm: seq<int>, inv: seq<int>, i: int)
    requires SameButReordered(sig, other, perm, inv) && 0 <= i < BlobCount(sig)
    requires BlobInBounds(sig, perm[i])
    ensures BlobInBounds(other, i) && Size(other, i) == Size(sig, perm[i]) && Blob(other, i) == Blob(sig, perm[i])
  {
    ReorderedBounds(sig, other, perm, inv, i);
    var start := Start(sig, perm[i]);
    SameSlices(sig, other, TableEnd(sig), start, start + Size(sig, perm[i]));
  }

  /** Reordering the index entries changes neither the verdict nor the constraint. */
  lemma OrderIrrelevant(sig: seq<Byte>, other: seq<Byte>, perm: seq<int>, inv: seq<int>, i: int)
    requires SameButReordered(sig, other, perm, inv) && ConstraintAt(sig, i)
    ensures ConstraintAt(other, inv[i]) && Blob(other, inv[i]) == Blob(sig, i)
  {
    var n := BlobCount(sig);
    forall k | 0 <= k < n
      ensures BlobInBounds(other, k) && Size(other, k) == Size(sig, perm[k])
    {
      ReorderedBlob(sig, other, perm, inv, k);
    }
    forall j, k | 0 <= j < k < n ensures Apart(other, j, k) {
      assert perm[j] != perm[k];
      assert perm[j] < perm[k] ==> Apart(sig, perm[j], perm[k]);
      assert perm[k] < perm[j] ==> Apart(sig, perm[k], perm[j]);
    }
    ReorderedBlob(sig, other, perm, inv, inv[i]);
  }

  lemma SameCommands(image: seq<Byte>, other: seq<Byte>, start: int, length: int)
    requires SignatureAt(image, start, length)
    requires |other| == |image| && other[..CommandsEnd(image)] == image[..CommandsEnd(image)]
    ensures SignatureAt(other, start, length) && CommandsEnd(other) == CommandsEnd(image)
  {
    var end := CommandsEnd(image);
    assert forall k | 0 <= k < end :: other[k] == other[..end][k] && image[k] == image[..end][k];
    assert forall at | 0 <= at && at + 4 <= end :: Le(other, at) == Le(image, at);
    var cuts, i :| Tiling(image, cuts) && OnlySignature(image, cuts, i, start, length);
    assert Header(other) && CommandsEnd(other) == end;
    assert forall at | Command(image, at, end) :: Command(other, at, end);
    forall k | 0 <= k < |cuts| - 1 ensures Adjacent(other, cuts, k) {
      assert Adjacent(image, cuts, k) && Command(image, cuts[k], end);
    }
    assert Tiling(other, cuts);
    assert OnlySignature(other, cuts, i, start, length);
  }

  /** Equal, or equal but for the order of the index entries. */
  ghost predicate SameSignature(sig: seq<Byte>, other: seq<Byte>)
  {
    sig == other || exists perm, inv :: SameButReordered(sig, other, perm, inv)
  }

  lemma SameSignatureIsSymmetric(sig: seq<Byte>, other: seq<Byte>)
    requires SameSignature(sig, other)
    ensures SameSignature(other, sig)
  {
    if sig != other {
      var perm, inv :| SameButReordered(sig, other, perm, inv);
      assert SameButReordered(other, sig, inv, perm);
    }
  }

  lemma SameConstraint(image: seq<Byte>, other: seq<Byte>, blob: seq<Byte>, start: int, length: int)
    requires SignatureAt(image, start, length) && InImage(image, start, length)
    requires |other| == |image| && other[..CommandsEnd(image)] == image[..CommandsEnd(image)]
    requires SameSignature(Slice(image, start, length), Slice(other, start, length)) && Accepts(image, blob)
    ensures Accepts(other, blob)
  {
    var s, l, i :| AcceptsAt(image, s, l, i, blob);
    SignatureUnique(image, s, l, start, length);
    SameCommands(image, other, start, length);
    var sig, sig' := Slice(image, start, length), Slice(other, start, length);
    if sig == sig' {
      assert AcceptsAt(other, start, length, i, blob);
    } else {
      var perm, inv :| SameButReordered(sig, sig', perm, inv);
      OrderIrrelevant(sig, sig', perm, inv, i);
      assert AcceptsAt(other, start, length, inv[i], blob);
    }
  }

  /** The verdict depends on nothing but the header, the load commands and the signature, and on the signature
      only up to the order of its index. */
  lemma OnlySignedBytesMatter(image: seq<Byte>, other: seq<Byte>, blob: seq<Byte>, start: int, length: int)
    requires SignatureAt(image, start, length) && InImage(image, start, length)
    requires |other| == |image| && other[..CommandsEnd(image)] == image[..CommandsEnd(image)]
    requires SameSignature(Slice(image, start, length), Slice(other, start, length))
    ensures Accepts(image, blob) <==> Accepts(other, blob)
  {
    SameCommands(image, other, start, length);
    if Accepts(image, blob) {
      SameConstraint(image, other, blob, start, length);
    }
    if Accepts(other, blob) {
      SameSignatureIsSymmetric(Slice(image, start, length), Slice(other, start, length));
      SameConstraint(other, image, blob, start, length);
    }
  }

  // ----- Every blob can be signed for -----

  predicate IsWord(n: int) { 0 <= n < 0x100000000 }

  function LittleWord(n: int): seq<Byte>
    requires IsWord(n)
  {
    [n % 256, n / 256 % 256, n / 256 / 256 % 256, n / 256 / 256 / 256]
  }

  function BigWord(n: int): seq<Byte>
    requires IsWord(n)
  {
    [n / 256 / 256 / 256, n / 256 / 256 % 256, n / 256 % 256, n % 256]
  }

  lemma WordIsSum(n: int)
    requires IsWord(n)
    ensures n == Word(n % 256, n / 256 % 256, n / 256 / 256 % 256, n / 256 / 256 / 256)
  {
    var a := n / 256;
    var b := a / 256;
    assert n == 256 * a + n % 256 && a == 256 * b + a % 256 && b == 256 * (b / 256) + b % 256;
  }

  function LittleWords(ns: seq<int>): (r: seq<Byte>)
    requires forall i | 0 <= i < |ns| :: IsWord(ns[i])
    ensures |r| == 4 * |ns|
  {
    if ns == [] then [] else LittleWords(ns[..|ns| - 1]) + LittleWord(ns[|ns| - 1])
  }

  function BigWords(ns: seq<int>): (r: seq<Byte>)
    requires forall i | 0 <= i < |ns| :: IsWord(ns[i])
    ensures |r| == 4 * |ns|
  {
    if ns == [] then [] else BigWords(ns[..|ns| - 1]) + BigWord(ns[|ns| - 1])
  }

  lemma {:induction false} LittleReadsBack(ns: seq<int>, rest: seq<Byte>, i: nat)
    requires i < |ns| && forall i | 0 <= i < |ns| :: IsWord(ns[i])
    ensures Le(LittleWords(ns) + rest, 4 * i) == ns[i]
  {
    var n := |ns| - 1;
    if i == n {
      WordIsSum(ns[n]);
    } else {
      LittleReadsBack(ns[..n], LittleWord(ns[n]) + rest, i);
      assert LittleWords(ns) + rest == LittleWords(ns[..n]) + (LittleWord(ns[n]) + rest);
    }
  }

  lemma {:induction false} BigReadsBack(ns: seq<int>, rest: seq<Byte>, i: nat)
    requires i < |ns| && forall i | 0 <= i < |ns| :: IsWord(ns[i])
    ensures Be(BigWords(ns) + rest, 4 * i) == ns[i]
  {
    var n := |ns| - 1;
    if i == n {
      WordIsSum(ns[n]);
    } else {
      BigReadsBack(ns[..n], BigWord(ns[n]) + rest, i);
      assert BigWords(ns) + rest == BigWords(ns[..n]) + (BigWord(ns[n]) + rest);
    }
  }

  /** A blob that states its own size and fits a signature. */
  predicate WellSized(blob: seq<Byte>)
  {
    8 <= |blob| && Be(blob, 4) == |blob| && 20 + |blob| <= MAX_SIGNATURE
  }

  function TableWords(n: nat): seq<int> { [SUPERBLOB_MAGIC, 20 + n, 1, CONSTRAINT_SLOT, 20] }

  function HeadWords(n: nat): seq<int>
  {
    [MACHO_MAGIC, ARM64, 0, EXECUTABLE, 1, 16, 0, 0, SIGNATURE_COMMAND, 16, 48, 20 + n]
  }

  /** A signature whose one blob is the constraint. */
  function SignatureOf(blob: seq<Byte>): seq<Byte>
    requires WellSized(blob)
  {
    BigWords(TableWords(|blob|)) + blob
  }

  /** An executable whose one load command points at that signature. */
  function ImageOf(blob: seq<Byte>): seq<Byte>
    requires WellSized(blob)
  {
    LittleWords(HeadWords(|blob|)) + SignatureOf(blob)
  }

  lemma SignatureReadsBack(blob: seq<Byte>)
    requires WellSized(blob)
    ensures var sig := SignatureOf(blob);
      && |sig| == 20 + |blob| && sig[20..] == blob
      && Be(sig, 0) == SUPERBLOB_MAGIC && Be(sig, 4) == 20 + |blob| && Be(sig, 8) == 1
      && Be(sig, 12) == CONSTRAINT_SLOT && Be(sig, 16) == 20 && Be(sig, 24) == |blob|
  {
    var sig, ns := SignatureOf(blob), TableWords(|blob|);
    forall i: nat | i < 5 ensures Be(sig, 4 * i) == ns[i] { BigReadsBack(ns, blob, i); }
    assert Be(sig, 4 * 0) == SUPERBLOB_MAGIC && Be(sig, 4 * 1) == 20 + |blob| && Be(sig, 4 * 2) == 1;
    assert Be(sig, 4 * 3) == CONSTRAINT_SLOT && Be(sig, 4 * 4) == 20;
    assert Be(sig, 24) == Be(blob, 4);
  }

  lemma SignatureHolds(blob: seq<Byte>)
    requires WellSized(blob)
    ensures ConstraintAt(SignatureOf(blob), 0) && Blob(SignatureOf(blob), 0) == blob
  {
    var sig := SignatureOf(blob);
    SignatureReadsBack(blob);
    assert Table(sig) && BlobInBounds(sig, 0);
    assert sig[20..20 + |blob|] == sig[20..];
  }

  lemma ImagePlaces(blob: seq<Byte>)
    requires WellSized(blob)
    ensures SignatureAt(ImageOf(blob), 48, 20 + |blob|)
  {
    var image, ns := ImageOf(blob), HeadWords(|blob|);
    forall i: nat | i < 12 ensures Le(image, 4 * i) == ns[i] { LittleReadsBack(ns, SignatureOf(blob), i); }
    assert Le(image, 4 * 0) == MACHO_MAGIC && Le(image, 4 * 1) == ARM64 && Le(image, 4 * 3) == EXECUTABLE;
    assert Le(image, 4 * 4) == 1 && Le(image, 4 * 5) == 16;
    assert Le(image, 4 * 8) == SIGNATURE_COMMAND && Le(image, 4 * 9) == 16;
    assert Le(image, 4 * 10) == 48 && Le(image, 4 * 11) == 20 + |blob|;
    assert Header(image);
    assert Adjacent(image, [32, 48], 0);
    assert Tiling(image, [32, 48]);
    assert OnlySignature(image, [32, 48], 0, 48, 20 + |blob|);
  }

  /** The format shuts out no constraint: every well-sized blob is the library constraint of some image. */
  lemma EveryBlobIsAccepted(blob: seq<Byte>)
    requires WellSized(blob)
    ensures Accepts(ImageOf(blob), blob)
  {
    ImagePlaces(blob);
    SignatureHolds(blob);
    assert Slice(ImageOf(blob), 48, 20 + |blob|) == SignatureOf(blob);
    assert AcceptsAt(ImageOf(blob), 48, 20 + |blob|, 0, blob);
  }
}
