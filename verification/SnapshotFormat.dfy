/** The snapshot blob: magic, version, generation, manifest, file bytes, CRC. */
module SnapshotFormat {
  import opened Common
  import opened Bits
  import opened Crc32
  import opened VfsPath
  import opened Vfs

  const HEADER_LEN := 20

  /** "PGRSNP1" and a NUL. */
  function Magic(): Bytes { [80, 71, 82, 83, 78, 80, 49, 0] }

  /** A 32-bit number, little end first; the host takes the number modulo 2^32. */
  function U32(n: nat): (b: Bytes)
    ensures |b| == 4
  {
    [(n % 256) as Byte, (n / 0x100 % 256) as Byte, (n / 0x1_0000 % 256) as Byte, (n / 0x100_0000 % 256) as Byte]
  }

  function ReadU32(b: Bytes): nat
    requires |b| == 4
  {
    b[0] as int + 0x100 * b[1] as int + 0x1_0000 * b[2] as int + 0x100_0000 * b[3] as int
  }

  lemma HalfWord(n: nat)
    ensures n % 0x1_0000 == n % 256 + 0x100 * (n / 0x100 % 256)
  {
    assert n == n % 256 + 256 * (n / 256);
  }

  lemma TwoHalves(n: nat)
    ensures n % 0x1_0000_0000 == n % 0x1_0000 + 0x1_0000 * (n / 0x1_0000 % 0x1_0000)
  {
    assert n == n % 0x1_0000 + 0x1_0000 * (n / 0x1_0000);
  }

  lemma Quarters(n: nat)
    ensures n / 0x1_0000 / 0x100 == n / 0x100_0000
  {
  }

  lemma FourDigits(n: nat)
    ensures n % 0x1_0000_0000
            == n % 256 + 0x100 * (n / 0x100 % 256) + 0x1_0000 * (n / 0x1_0000 % 256) + 0x100_0000 * (n / 0x100_0000 % 256)
  {
    TwoHalves(n);
    HalfWord(n);
    HalfWord(n / 0x1_0000);
    Quarters(n);
  }

  lemma ReadOfU32(n: nat)
    ensures ReadU32(U32(n)) == n % 0x1_0000_0000
  {
    FourDigits(n);
  }

  /** The CRC as the number it is stored as. */
  function CrcNumber(bytes: Bytes): (n: nat) {
    ToNat(Crc(bytes))
  }

  lemma CrcNumberFits(bytes: Bytes)
    ensures CrcNumber(bytes) < 0x1_0000_0000
  {
    assert Pow2(8) == 256;
    assert Pow2(16) == 0x1_0000;
    assert Pow2(24) == 0x100_0000;
    assert Pow2(32) == 0x1_0000_0000;
  }

  method CrcOf(bytes: Bytes) returns (n: nat)
    ensures n == CrcNumber(bytes)
  {
    var crc := Compute(bytes, Zero());
    CrcIsReference(bytes);
    n := ToNat(crc);
  }

  // ---- the manifest's text ------------------------------------------------------------------------------

  /** The manifest codec; its text format is not part of this model, only that decoding undoes encoding. */
  datatype Codec = Codec(enc: Manifest -> Bytes, dec: Bytes -> Option<Manifest>)

  ghost predicate RoundTrips(codec: Codec) {
    forall m :: codec.dec(codec.enc(m)) == Some(m)
  }

  // ---- what is written ----------------------------------------------------------------------------------

  function DirsOf(keys: seq<Path>, nodes: Nodes): seq<Path>
    requires forall k :: k in keys ==> k in nodes
  {
    if keys == [] then []
    else (if nodes[keys[0]].Dir? then [keys[0]] else []) + DirsOf(keys[1..], nodes)
  }

  function FilesOf(keys: seq<Path>, nodes: Nodes, off: nat): seq<Entry>
    requires forall k :: k in keys ==> k in nodes
    decreases |keys|
  {
    if keys == [] then []
    else match nodes[keys[0]]
      case Dir(_) => FilesOf(keys[1..], nodes, off)
      case File(mtime, data) =>
        [Entry(keys[0], off, |data|, mtime)] + FilesOf(keys[1..], nodes, off + |data|)
  }

  function DataOf(keys: seq<Path>, nodes: Nodes): Bytes
    requires forall k :: k in keys ==> k in nodes
  {
    if keys == [] then []
    else (if nodes[keys[0]].File? then nodes[keys[0]].data else []) + DataOf(keys[1..], nodes)
  }

  function ManifestOf(keys: seq<Path>, nodes: Nodes): Manifest
    requires forall k :: k in keys ==> k in nodes
  {
    Manifest(DirsOf(keys, nodes), FilesOf(keys, nodes, 0))
  }

  function Header(generation: nat, manifestLen: nat): (h: Bytes)
    ensures |h| == HEADER_LEN
  {
    Magic() + U32(1) + U32(generation) + U32(manifestLen)
  }

  function Body(generation: nat, manifest: Bytes, data: Bytes): Bytes {
    Header(generation, |manifest|) + manifest + data
  }

  function Sealed(body: Bytes): Bytes {
    body + U32(CrcNumber(body))
  }

  function Blob(codec: Codec, keys: seq<Path>, nodes: Nodes, generation: nat): Bytes
    requires forall k :: k in keys ==> k in nodes
  {
    Sealed(Body(generation, codec.enc(ManifestOf(keys, nodes)), DataOf(keys, nodes)))
  }

  /** Copy bytes into a buffer. */
  method SetBytes(out: array<Byte>, at: nat, src: Bytes)
    requires at + |src| <= out.Length
    modifies out
    ensures out[..at + |src|] == old(out[..at]) + src
    ensures out[at + |src|..] == old(out[at + |src|..])
  {
    for i := 0 to |src|
      invariant out[..at] == old(out[..at]) && out[at + |src|..] == old(out[at + |src|..])
      invariant forall j :: 0 <= j < i ==> out[at + j] == src[j]
    {
      out[at + i] := src[i];
    }
  }

  /** What the visit of the nodes has gathered: the listing, the file contents, the length so far. */
  datatype Gathered = Gathered(dirs: seq<Path>, files: seq<Entry>, datas: seq<Bytes>, off: nat)

  function Visit(g: Gathered, key: Path, node: Node): Gathered {
    match node
    case Dir(_) => g.(dirs := g.dirs + [key])
    case File(mtime, d) => Gathered(g.dirs, g.files + [Entry(key, g.off, |d|, mtime)], g.datas + [d], g.off + |d|)
  }

  function VisitAll(g: Gathered, keys: seq<Path>, nodes: Nodes): Gathered
    requires forall k :: k in keys ==> k in nodes
    decreases |keys|
  {
    if keys == [] then g else VisitAll(Visit(g, keys[0], nodes[keys[0]]), keys[1..], nodes)
  }

  lemma VisitStep(g: Gathered, keys: seq<Path>, nodes: Nodes)
    requires keys != [] && forall k :: k in keys ==> k in nodes
    ensures VisitAll(g, keys, nodes) == VisitAll(Visit(g, keys[0], nodes[keys[0]]), keys[1..], nodes)
    ensures DirsOf(keys, nodes) == (if nodes[keys[0]].Dir? then [keys[0]] else []) + DirsOf(keys[1..], nodes)
  {
  }

  lemma {:induction false} VisitDirs(g: Gathered, keys: seq<Path>, nodes: Nodes)
    requires forall k :: k in keys ==> k in nodes
    ensures VisitAll(g, keys, nodes).dirs == g.dirs + DirsOf(keys, nodes)
    decreases |keys|
  {
    if keys != [] {
      hide VisitAll, DirsOf;
      var node := nodes[keys[0]];
      VisitStep(g, keys, nodes);
      VisitDirs(Visit(g, keys[0], node), keys[1..], nodes);
      if node.Dir? {
        assert g.dirs + [keys[0]] + DirsOf(keys[1..], nodes) == g.dirs + ([keys[0]] + DirsOf(keys[1..], nodes));
      }
    }
  }

  lemma {:induction false} VisitFiles(g: Gathered, keys: seq<Path>, nodes: Nodes)
    requires forall k :: k in keys ==> k in nodes
    ensures VisitAll(g, keys, nodes).files == g.files + FilesOf(keys, nodes, g.off)
    decreases |keys|
  {
    if keys != [] { VisitFiles(Visit(g, keys[0], nodes[keys[0]]), keys[1..], nodes); }
  }

  lemma VisitOne(g: Gathered, key: Path, node: Node)
    requires g.off == |Concat(g.datas)|
    ensures var r := Visit(g, key, node);
            Concat(r.datas) == Concat(g.datas) + (if node.File? then node.data else []) && r.off == |Concat(r.datas)|
  {
    hide Concat;
    if node.File? { ConcatSnoc(g.datas, node.data); }
  }

  lemma {:induction false} VisitData(g: Gathered, keys: seq<Path>, nodes: Nodes)
    requires forall k :: k in keys ==> k in nodes
    requires g.off == |Concat(g.datas)|
    ensures var r := VisitAll(g, keys, nodes);
            Concat(r.datas) == Concat(g.datas) + DataOf(keys, nodes) && r.off == |Concat(r.datas)|
    decreases |keys|
  {
    hide Concat, Visit;
    if keys != [] {
      var node := nodes[keys[0]];
      VisitOne(g, keys[0], node);
      VisitData(Visit(g, keys[0], node), keys[1..], nodes);
      var one, rest := if node.File? then node.data else [], DataOf(keys[1..], nodes);
      assert (Concat(g.datas) + one) + rest == Concat(g.datas) + (one + rest);
    }
  }

  method Collect(keys: seq<Path>, nodes: Nodes) returns (g: Gathered)
    requires forall k :: k in keys ==> k in nodes
    ensures Manifest(g.dirs, g.files) == ManifestOf(keys, nodes)
    ensures Concat(g.datas) == DataOf(keys, nodes) && g.off == |Concat(g.datas)|
  {
    g := Gathered([], [], [], 0);
    VisitDirs(g, keys, nodes);
    VisitFiles(g, keys, nodes);
    VisitData(g, keys, nodes);
    for i := 0 to |keys|
      invariant VisitAll(g, keys[i..], nodes) == VisitAll(Gathered([], [], [], 0), keys, nodes)
    {
      assert keys[i..][0] == keys[i] && keys[i..][1..] == keys[i + 1..];
      g := Visit(g, keys[i], nodes[keys[i]]);
    }
  }

  method WriteHeader(out: array<Byte>, generation: nat, manifestLen: nat)
    requires HEADER_LEN <= out.Length
    modifies out
    ensures out[..HEADER_LEN] == Header(generation, manifestLen)
  {
    SetBytes(out, 0, Magic());
    SetBytes(out, 8, U32(1));
    SetBytes(out, 12, U32(generation));
    SetBytes(out, 16, U32(manifestLen));
  }

  method WriteDatas(out: array<Byte>, at: nat, datas: seq<Bytes>) returns (p: nat)
    requires at + |Concat(datas)| <= out.Length
    modifies out
    ensures p == at + |Concat(datas)| && out[..p] == old(out[..at]) + Concat(datas)
  {
    p := at;
    for i := 0 to |datas|
      invariant at <= p <= p + |Concat(datas[i..])| == at + |Concat(datas)|
      invariant out[..p] + Concat(datas[i..]) == old(out[..at]) + Concat(datas)
    {
      assert datas[i..][0] == datas[i] && datas[i..][1..] == datas[i + 1..];
      SetBytes(out, p, datas[i]);
      p := p + |datas[i]|;
    }
  }

  /** Serialize the nodes, visited in the order of keys, into one buffer. */
  method SerializeVfs(codec: Codec, keys: seq<Path>, nodes: Nodes, generation: nat) returns (out: array<Byte>)
    requires forall k :: k in keys ==> k in nodes
    ensures out[..] == Blob(codec, keys, nodes, generation)
  {
    hide Concat, DataOf, U32, CrcNumber, Header;
    var g := Collect(keys, nodes);
    var manifest := codec.enc(Manifest(g.dirs, g.files));
    out := new Byte[HEADER_LEN + |manifest| + g.off + 4](_ => 0);
    WriteHeader(out, generation, |manifest|);
    SetBytes(out, HEADER_LEN, manifest);
    var p := WriteDatas(out, HEADER_LEN + |manifest|, g.datas);
    assert out[..p] == Body(generation, manifest, Concat(g.datas));
    var crc := CrcOf(out[..p]);
    SetBytes(out, p, U32(crc));
    assert out[..] == out[..p + 4];
  }

  // ---- what is read ---------------------------------------------------------------------------------------

  datatype Snapshot = Snapshot(image: Bytes, manifest: Manifest, generation: nat)

  datatype Corrupt = TooShort | BadMagic | BadVersion | ManifestOverruns | CrcMismatch | BadManifest | EntryOverruns

  predicate EntriesFit(files: seq<Entry>, dataLen: nat) {
    forall i :: 0 <= i < |files| ==> files[i].off + files[i].len <= dataLen
  }

  /** The checks on the fixed fields; a good blob's manifest length. */
  function HeaderChecked(bytes: Bytes): (r: Result<nat, Corrupt>)
    ensures r.Success? ==> HEADER_LEN + r.value + 4 <= |bytes|
  {
    if |bytes| < HEADER_LEN + 4 then Failure(TooShort)
    else if bytes[..8] != Magic() then Failure(BadMagic)
    else if ReadU32(bytes[8..12]) != 1 then Failure(BadVersion)
    else
      var manifestLen := ReadU32(bytes[16..20]);
      if HEADER_LEN + manifestLen + 4 > |bytes| then Failure(ManifestOverruns) else Success(manifestLen)
  }

  predicate CrcMatches(bytes: Bytes)
    requires |bytes| >= 4
  {
    var crcAt := |bytes| - 4;
    CrcNumber(bytes[..crcAt]) == ReadU32(bytes[crcAt..])
  }

  function Payload(codec: Codec, bytes: Bytes, manifestLen: nat): Result<Snapshot, Corrupt>
    requires HEADER_LEN + manifestLen + 4 <= |bytes|
  {
    var crcAt := |bytes| - 4;
    var dataStart := HEADER_LEN + manifestLen;
    match codec.dec(bytes[HEADER_LEN..dataStart])
    case None => Failure(BadManifest)
    case Some(manifest) =>
      if !EntriesFit(manifest.files, crcAt - dataStart) then Failure(EntryOverruns)
      else Success(Snapshot(bytes[dataStart..crcAt], manifest, ReadU32(bytes[12..16])))
  }

  function Restore(codec: Codec, bytes: Bytes): Result<Snapshot, Corrupt> {
    match HeaderChecked(bytes)
    case Failure(e) => Failure(e)
    case Success(manifestLen) => if CrcMatches(bytes) then Payload(codec, bytes, manifestLen) else Failure(CrcMismatch)
  }

  method MagicMatches(bytes: Bytes) returns (ok: bool)
    requires |bytes| >= 8
    ensures ok == (bytes[..8] == Magic())
  {
    for i := 0 to 8
      invariant bytes[..i] == Magic()[..i]
    {
      if bytes[i] != Magic()[i] {
        assert bytes[..8][i] != Magic()[i];
        return false;
      }
    }
    assert Magic()[..8] == Magic();
    return true;
  }

  method CheckEntries(files: seq<Entry>, dataLen: nat) returns (ok: bool)
    ensures ok == EntriesFit(files, dataLen)
  {
    for i := 0 to |files|
      invariant EntriesFit(files[..i], dataLen)
    {
      if files[i].off + files[i].len > dataLen {
        return false;
      }
    }
    assert files[..|files|] == files;
    return true;
  }

  method CheckHeader(bytes: Bytes) returns (r: Result<nat, Corrupt>)
    ensures r == HeaderChecked(bytes)
  {
    if |bytes| < HEADER_LEN + 4 {
      return Failure(TooShort);
    }
    var magicOk := MagicMatches(bytes);
    if !magicOk {
      return Failure(BadMagic);
    }
    if ReadU32(bytes[8..12]) != 1 {
      return Failure(BadVersion);
    }
    var manifestLen := ReadU32(bytes[16..20]);
    if HEADER_LEN + manifestLen + 4 > |bytes| {
      return Failure(ManifestOverruns);
    }
    return Success(manifestLen);
  }

  method CheckCrc(bytes: Bytes) returns (ok: bool)
    requires |bytes| >= 4
    ensures ok == CrcMatches(bytes)
  {
    var crcAt := |bytes| - 4;
    var crc := CrcOf(bytes[..crcAt]);
    ok := crc == ReadU32(bytes[crcAt..]);
  }

  method Unpack(codec: Codec, bytes: Bytes, manifestLen: nat) returns (r: Result<Snapshot, Corrupt>)
    requires HEADER_LEN + manifestLen + 4 <= |bytes|
    ensures r == Payload(codec, bytes, manifestLen)
  {
    var crcAt := |bytes| - 4;
    var dataStart := HEADER_LEN + manifestLen;
    var decoded := codec.dec(bytes[HEADER_LEN..dataStart]);
    if decoded.None? {
      return Failure(BadManifest);
    }
    var fits := CheckEntries(decoded.value.files, crcAt - dataStart);
    if !fits {
      return Failure(EntryOverruns);
    }
    return Success(Snapshot(bytes[dataStart..crcAt], decoded.value, ReadU32(bytes[12..16])));
  }

  /** Validate and split a blob. */
  method RestoreVfs(codec: Codec, bytes: Bytes) returns (r: Result<Snapshot, Corrupt>)
    ensures r == Restore(codec, bytes)
  {
    var checked := CheckHeader(bytes);
    if checked.Failure? {
      return Failure(checked.error);
    }
    var crcOk := CheckCrc(bytes);
    if !crcOk {
      return Failure(CrcMismatch);
    }
    r := Unpack(codec, bytes, checked.value);
  }

  // ---- the round trip ---------------------------------------------------------------------------------------

  ghost predicate Enumerates(keys: seq<Path>, nodes: Nodes) {
    && (forall k :: k in keys <==> k in nodes)
    && (forall i, j :: 0 <= i < j < |keys| ==> keys[i] != keys[j])
  }

  /** The bytes a file entry names. */
  ghost predicate Holds(image: Bytes, f: Entry, node: Node) {
    && 0 <= f.off <= f.off + f.len <= |image|
    && node == File(f.mtime, image[f.off..f.off + f.len])
  }

  /** Entries lie end to end from one offset to another. */
  ghost predicate EndToEnd(files: seq<Entry>, from: int, to: int) {
    if files == [] then from == to
    else files[0].off == from && files[0].len >= 0 && EndToEnd(files[1..], from + files[0].len, to)
  }

  lemma EndToEndCons(f: Entry, rest: seq<Entry>, from: int, to: int)
    requires f.off == from && f.len >= 0 && EndToEnd(rest, from + f.len, to)
    ensures EndToEnd([f] + rest, from, to)
  {
    assert ([f] + rest)[1..] == rest;
  }

  lemma {:induction false} RegionsEndToEnd(keys: seq<Path>, nodes: Nodes, off: nat)
    requires forall k :: k in keys ==> k in nodes
    ensures EndToEnd(FilesOf(keys, nodes, off), off, off + |DataOf(keys, nodes)|)
    decreases |keys|
  {
    if keys != [] {
      match nodes[keys[0]]
      case Dir(_) => RegionsEndToEnd(keys[1..], nodes, off);
      case File(mtime, d) =>
        RegionsEndToEnd(keys[1..], nodes, off + |d|);
        EndToEndCons(Entry(keys[0], off, |d|, mtime), FilesOf(keys[1..], nodes, off + |d|), off, off + |DataOf(keys, nodes)|);
    }
  }

  lemma FirstHolds(before: Bytes, d: Bytes, rest: Bytes, path: Path, mtime: int)
    ensures Holds(before + (d + rest), Entry(path, |before|, |d|, mtime), File(mtime, d))
  {
    assert (before + (d + rest))[|before|..|before| + |d|] == d;
  }

  lemma {:induction false} EntryHolds(keys: seq<Path>, nodes: Nodes, before: Bytes, f: Entry)
    requires forall k :: k in keys ==> k in nodes
    requires f in FilesOf(keys, nodes, |before|)
    ensures f.path in keys && Holds(before + DataOf(keys, nodes), f, nodes[f.path])
    decreases |keys|
  {
    hide Holds;
    match nodes[keys[0]]
    case Dir(_) =>
      EntryHolds(keys[1..], nodes, before, f);
      assert DataOf(keys, nodes) == DataOf(keys[1..], nodes);
    case File(mtime, d) =>
      var rest := DataOf(keys[1..], nodes);
      if f == Entry(keys[0], |before|, |d|, mtime) {
        FirstHolds(before, d, rest, keys[0], mtime);
      } else {
        EntryHolds(keys[1..], nodes, before + d, f);
        assert before + d + rest == before + (d + rest);
      }
  }

  /** Every entry holds its file. */
  lemma EntriesHold(keys: seq<Path>, nodes: Nodes, before: Bytes)
    requires forall k :: k in keys ==> k in nodes
    ensures forall f :: f in FilesOf(keys, nodes, |before|) ==>
              f.path in keys && Holds(before + DataOf(keys, nodes), f, nodes[f.path])
  {
    hide Holds, DataOf;
    forall f | f in FilesOf(keys, nodes, |before|)
      ensures f.path in keys && Holds(before + DataOf(keys, nodes), f, nodes[f.path])
    {
      EntryHolds(keys, nodes, before, f);
    }
  }

  /** Exactly the directories are listed, and exactly the files. */
  lemma {:induction false} ListingComplete(keys: seq<Path>, nodes: Nodes, off: nat)
    requires forall k :: k in keys ==> k in nodes
    ensures forall p :: p in DirsOf(keys, nodes) <==> p in keys && nodes[p].Dir?
    ensures forall f :: f in FilesOf(keys, nodes, off) ==> f.path in keys && nodes[f.path].File?
    ensures forall p :: p in keys && nodes[p].File? ==> exists f :: f in FilesOf(keys, nodes, off) && f.path == p
    decreases |keys|
  {
    if keys != [] {
      match nodes[keys[0]]
      case Dir(_) => ListingComplete(keys[1..], nodes, off);
      case File(mtime, d) =>
        ListingComplete(keys[1..], nodes, off + |d|);
        var rest := FilesOf(keys[1..], nodes, off + |d|);
        var files := FilesOf(keys, nodes, off);
        assert files[0].path == keys[0] && files[0] in files;
        assert forall f :: f in rest ==> f in files;
    }
  }

  lemma EntriesFitImage(keys: seq<Path>, nodes: Nodes)
    requires forall k :: k in keys ==> k in nodes
    ensures EntriesFit(FilesOf(keys, nodes, 0), |DataOf(keys, nodes)|)
  {
    var files := FilesOf(keys, nodes, 0);
    EntriesHold(keys, nodes, []);
    assert [] + DataOf(keys, nodes) == DataOf(keys, nodes);
    forall i | 0 <= i < |files|
      ensures files[i].off + files[i].len <= |DataOf(keys, nodes)|
    {
      assert files[i] in files;
    }
  }

  lemma BodyFields(generation: nat, manifest: Bytes, data: Bytes, tail: Bytes)
    requires |tail| == 4
    ensures var b := Body(generation, manifest, data) + tail;
            && |b| == HEADER_LEN + |manifest| + |data| + 4
            && b[..8] == Magic() && b[8..12] == U32(1) && b[12..16] == U32(generation) && b[16..20] == U32(|manifest|)
            && b[HEADER_LEN..HEADER_LEN + |manifest|] == manifest
            && b[HEADER_LEN + |manifest|..|b| - 4] == data
            && b[..|b| - 4] == Body(generation, manifest, data) && b[|b| - 4..] == tail
  {
    var h := Header(generation, |manifest|);
    assert h[..8] == Magic() && h[8..12] == U32(1) && h[12..16] == U32(generation) && h[16..20] == U32(|manifest|);
    var b := Body(generation, manifest, data) + tail;
    assert b[..HEADER_LEN] == h;
    assert b[..8] == h[..8] && b[8..12] == h[8..12] && b[12..16] == h[12..16] && b[16..20] == h[16..20];
  }

  lemma HeaderOfBody(generation: nat, manifest: Bytes, data: Bytes, tail: Bytes)
    requires |manifest| < 0x1_0000_0000 && |tail| == 4
    ensures HeaderChecked(Body(generation, manifest, data) + tail) == Success(|manifest|)
  {
    hide U32, ReadU32, Body, HeaderChecked;
    var b := Body(generation, manifest, data) + tail;
    BodyFields(generation, manifest, data, tail);
    assert ReadU32(b[8..12]) == 1 by { ReadOfU32(1); }
    assert ReadU32(b[16..20]) == |manifest| by { ReadOfU32(|manifest|); }
    GoodFields(b, |manifest|);
  }

  lemma GoodFields(b: Bytes, manifestLen: nat)
    requires HEADER_LEN + manifestLen + 4 <= |b| && b[..8] == Magic()
    requires ReadU32(b[8..12]) == 1 && ReadU32(b[16..20]) == manifestLen
    ensures HeaderChecked(b) == Success(manifestLen)
  {
  }

  lemma SealedMatches(body: Bytes)
    ensures CrcMatches(Sealed(body))
  {
    hide CrcNumber, U32, ReadU32;
    var b := Sealed(body);
    assert b[..|b| - 4] == body && b[|b| - 4..] == U32(CrcNumber(body));
    CrcNumberFits(body);
    ReadOfU32(CrcNumber(body));
  }

  lemma PayloadOfBody(codec: Codec, generation: nat, manifest: Bytes, m: Manifest, data: Bytes, tail: Bytes)
    requires codec.dec(manifest) == Some(m) && EntriesFit(m.files, |data|) && |tail| == 4
    ensures var b := Body(generation, manifest, data) + tail;
            && HEADER_LEN + |manifest| + 4 <= |b|
            && Payload(codec, b, |manifest|) == Success(Snapshot(data, m, generation % 0x1_0000_0000))
  {
    BodyFields(generation, manifest, data, tail);
    ReadOfU32(generation);
  }

  /** Reading a written blob gives back the generation, the listing and the file bytes. */
  lemma RestoreOfBlob(codec: Codec, keys: seq<Path>, nodes: Nodes, generation: nat)
    requires RoundTrips(codec)
    requires forall k :: k in keys ==> k in nodes
    requires |codec.enc(ManifestOf(keys, nodes))| < 0x1_0000_0000
    ensures Restore(codec, Blob(codec, keys, nodes, generation))
         == Success(Snapshot(DataOf(keys, nodes), ManifestOf(keys, nodes), generation % 0x1_0000_0000))
  {
    var m, data := ManifestOf(keys, nodes), DataOf(keys, nodes);
    var manifest := codec.enc(m);
    var body := Body(generation, manifest, data);
    var tail := U32(CrcNumber(body));
    HeaderOfBody(generation, manifest, data, tail);
    SealedMatches(body);
    EntriesFitImage(keys, nodes);
    PayloadOfBody(codec, generation, manifest, m, data, tail);
  }

  /** What a snapshot keeps: everything but the times of directories, which it does not record. */
  function Kept(nodes: Nodes): Nodes {
    map p | p in nodes :: if nodes[p].Dir? then Dir(0) else nodes[p]
  }

  lemma KeptIsAllIff(nodes: Nodes)
    ensures Kept(nodes) == nodes <==> forall p :: p in nodes && nodes[p].Dir? ==> nodes[p].mtime == 0
  {
    if Kept(nodes) == nodes {
      forall p | p in nodes && nodes[p].Dir?
        ensures nodes[p].mtime == 0
      {
        assert Kept(nodes)[p] == Dir(0);
      }
    }
  }

  function AsDirs(dirs: seq<Path>): Nodes { map p | p in dirs :: Dir(0) }

  lemma AsDirsCons(nodes: Nodes, dirs: seq<Path>)
    requires dirs != []
    ensures nodes[dirs[0] := Dir(0)] + AsDirs(dirs[1..]) == nodes + AsDirs(dirs)
  {
    assert dirs == [dirs[0]] + dirs[1..];
  }

  lemma {:induction false} WithDirsMeaning(nodes: Nodes, dirs: seq<Path>)
    requires forall d :: d in dirs ==> Norm(d) == d
    ensures WithDirs(nodes, dirs) == nodes + AsDirs(dirs)
    decreases |dirs|
  {
    if dirs != [] {
      AsDirsCons(nodes, dirs);
      WithDirsMeaning(nodes[dirs[0] := Dir(0)], dirs[1..]);
    }
  }

  /** The first file lands where the target has it. */
  lemma FirstFileLands(nodes: Nodes, image: Bytes, files: seq<Entry>, target: Nodes)
    requires files != [] && files[0].path in target
    requires Norm(files[0].path) == files[0].path && Holds(image, files[0], target[files[0].path])
    ensures var p := files[0].path;
            WithFiles(nodes, image, files) == WithFiles(nodes[p := target[p]], image, files[1..])
  {
    hide Norm;
    var f := files[0];
    assert Subarray(image, f.off, f.off + f.len) == image[f.off..f.off + f.len];
  }

  /** Files land where the target has them, whatever the order. */
  lemma {:induction false} WithFilesMeaning(nodes: Nodes, image: Bytes, files: seq<Entry>, target: Nodes)
    requires forall f :: f in files ==> Norm(f.path) == f.path && f.path in target && Holds(image, f, target[f.path])
    requires forall p :: p in nodes ==> p in target && nodes[p] == target[p]
    ensures var r := WithFiles(nodes, image, files);
            && (forall p :: p in r ==> p in target && r[p] == target[p])
            && nodes.Keys <= r.Keys
            && forall f :: f in files ==> f.path in r
    decreases |files|
  {
    if files != [] {
      hide Norm, Holds, WithFiles;
      var f := files[0];
      assert f in files;
      FirstFileLands(nodes, image, files, target);
      WithFilesMeaning(nodes[f.path := target[f.path]], image, files[1..], target);
    }
  }

  /** The listing of a normal file system names exactly its nodes. */
  lemma DirsAreKept(keys: seq<Path>, nodes: Nodes)
    requires Enumerates(keys, nodes) && Normal(nodes)
    ensures var d := WithDirs(map[], DirsOf(keys, nodes));
            && (forall p :: p in d <==> p in nodes && nodes[p].Dir?)
            && (forall p :: p in d ==> p in Kept(nodes) && d[p] == Kept(nodes)[p])
  {
    hide Norm, WithDirs, DirsOf;
    ListingComplete(keys, nodes, 0);
    WithDirsMeaning(map[], DirsOf(keys, nodes));
  }

  lemma FilesAreKept(keys: seq<Path>, nodes: Nodes)
    requires Enumerates(keys, nodes) && Normal(nodes)
    ensures forall f :: f in FilesOf(keys, nodes, 0) ==>
              Norm(f.path) == f.path && f.path in Kept(nodes) && Holds(DataOf(keys, nodes), f, Kept(nodes)[f.path])
    ensures forall p :: p in nodes && nodes[p].File? ==> exists f :: f in FilesOf(keys, nodes, 0) && f.path == p
  {
    hide Norm, FilesOf, DirsOf, DataOf, Holds;
    ListingComplete(keys, nodes, 0);
    EntriesHold(keys, nodes, []);
    assert [] + DataOf(keys, nodes) == DataOf(keys, nodes);
  }

  lemma SameAsKept(r: Nodes, nodes: Nodes)
    requires forall p :: p in r ==> p in Kept(nodes) && r[p] == Kept(nodes)[p]
    requires forall p :: p in nodes ==> p in r
    ensures r == Kept(nodes)
  {
  }

  lemma ListedIsKept(keys: seq<Path>, nodes: Nodes)
    requires Enumerates(keys, nodes) && Normal(nodes)
    ensures Listed(DataOf(keys, nodes), ManifestOf(keys, nodes)) == Kept(nodes)
  {
    hide Norm, WithDirs, WithFiles, DirsOf, FilesOf, DataOf, Holds, Kept;
    var dirs, files, image := DirsOf(keys, nodes), FilesOf(keys, nodes, 0), DataOf(keys, nodes);
    ListingComplete(keys, nodes, 0);
    DirsAreKept(keys, nodes);
    FilesAreKept(keys, nodes);
    WithFilesMeaning(WithDirs(map[], dirs), image, files, Kept(nodes));
    SameAsKept(WithFiles(WithDirs(map[], dirs), image, files), nodes);
  }

  /** Whatever ancestors the constructor adds, a normal closed file system comes back as it was kept. */
  lemma RebuiltIsKept(keys: seq<Path>, nodes: Nodes, rebuilt: Nodes)
    requires Enumerates(keys, nodes) && Normal(nodes) && AncestorClosed(nodes)
    requires Completes(rebuilt, Listed(DataOf(keys, nodes), ManifestOf(keys, nodes)))
    ensures rebuilt == Kept(nodes)
  {
    ListedIsKept(keys, nodes);
    assert AncestorClosed(Kept(nodes)) by {
      assert Kept(nodes).Keys == nodes.Keys;
    }
    ClosedNeedsNothing(rebuilt, Kept(nodes));
  }

  /** Save, reload the page, boot: the file system is back. */
  method SaveAndReload(codec: Codec, keys: seq<Path>, nodes: Nodes, generation: nat)
    returns (fs: FileSystem, restored: nat)
    requires RoundTrips(codec)
    requires Enumerates(keys, nodes) && Normal(nodes) && AncestorClosed(nodes)
    requires |codec.enc(ManifestOf(keys, nodes))| < 0x1_0000_0000
    ensures fresh(fs) && fs.nodes == Kept(nodes) && restored == generation % 0x1_0000_0000
    ensures fs.nodes == nodes <==> forall p :: p in nodes && nodes[p].Dir? ==> nodes[p].mtime == 0
  {
    KeptIsAllIff(nodes);
    var blob := SerializeVfs(codec, keys, nodes, generation);
    RestoreOfBlob(codec, keys, nodes, generation);
    var r := RestoreVfs(codec, blob[..]);
    fs := new FileSystem(r.value.image, r.value.manifest);
    RebuiltIsKept(keys, nodes, fs.nodes);
    restored := r.value.generation;
  }

  lemma RootAlone(mtime: int)
    ensures var nodes := map["/" := Dir(mtime)]; Enumerates(["/"], nodes) && Normal(nodes) && AncestorClosed(nodes)
  {
    NormKeepsNormal([]);
    SegmentsOfRoot();
  }

  /** A tree that does not survive: one directory with a time of its own. */
  method DirectoryTimeIsLost(codec: Codec, generation: nat) returns (fs: FileSystem)
    requires RoundTrips(codec) && |codec.enc(ManifestOf(["/"], map["/" := Dir(1)]))| < 0x1_0000_0000
    ensures fresh(fs) && fs.nodes != map["/" := Dir(1)]
  {
    ghost var nodes: Nodes := map["/" := Dir(1)];
    RootAlone(1);
    assert nodes["/"].Dir? && nodes["/"].mtime != 0;
    var restored;
    fs, restored := SaveAndReload(codec, ["/"], map["/" := Dir(1)], generation);
  }

  lemma ByteIsBits(b: Byte, rest: seq<bool>)
    ensures ToNat(ByteBits(b) + rest) == b as nat + 0x100 * ToNat(rest)
  {
    ToNatConcat(ByteBits(b), rest);
    ByteDoubled(ToNat(rest), 0);
    ToNatBitsOf(b as nat, 8);
  }

  /** A little-endian field is the number its bits spell. */
  lemma FieldIsBits(crc: Bytes)
    requires |crc| == 4
    ensures ReadU32(crc) == ToNat(AllBits(crc))
  {
    hide ToNat, ByteBits;
    ByteIsBits(crc[0], AllBits(crc[1..]));
    ByteIsBits(crc[1], AllBits(crc[2..]));
    ByteIsBits(crc[2], AllBits(crc[3..]));
    ByteIsBits(crc[3], AllBits(crc[4..]));
    assert crc[1..][1..] == crc[2..] && crc[2..][1..] == crc[3..] && crc[3..][1..] == crc[4..] == [];
    NoBits();
  }

  lemma NoBits()
    ensures ToNat(AllBits([])) == 0
  {
  }

  /** The stored CRC matches exactly when the register, run over the whole blob, ends in one fixed state. */
  lemma MatchesIffResidue(body: Bytes, crc: Bytes)
    requires |crc| == 4
    ensures CrcMatches(body + crc) <==> Register(body + crc) == Residue()
  {
    hide Register, Residue, ReadU32, AllBits, Crc, ToNat;
    assert (body + crc)[..|body|] == body && (body + crc)[|body|..] == crc;
    FieldIsBits(crc);
    StoredIffResidue(body, crc);
    if CrcMatches(body + crc) { ToNatInjective(Crc(body), AllBits(crc)); }
  }

  /** A good blob altered within four consecutive bytes, anywhere, is refused. */
  lemma AlteredBlobIsRefused(codec: Codec, before: Bytes, w: Bytes, w': Bytes, after: Bytes)
    requires |w| == |w'| <= 4 && w != w' && Restore(codec, before + w + after).Success?
    ensures Restore(codec, before + w' + after).Failure?
  {
    hide Restore, CrcMatches, Register, Residue;
    var good, bad := before + w + after, before + w' + after;
    RegistersDiffer(before, w, w', after);
    EndsInResidue(codec, good);
    if Restore(codec, bad).Success? { EndsInResidue(codec, bad); }
  }

  lemma EndsInResidue(codec: Codec, blob: Bytes)
    requires Restore(codec, blob).Success?
    ensures Register(blob) == Residue()
  {
    hide Restore, CrcMatches, Register, Residue;
    AcceptedMatches(codec, blob);
    var n := |blob| - 4;
    assert blob == blob[..n] + blob[n..];
    MatchesIffResidue(blob[..n], blob[n..]);
  }

  lemma AcceptedMatches(codec: Codec, blob: Bytes)
    requires Restore(codec, blob).Success?
    ensures |blob| >= 4 && CrcMatches(blob)
  {
  }

  // ---- exactly what is accepted ------------------------------------------------------------------------------------

  lemma U32OfRead(b: Bytes)
    requires |b| == 4
    ensures U32(ReadU32(b)) == b && ReadU32(b) < 0x1_0000_0000
  {
    var n := ReadU32(b);
    ByteOff(b[0] as nat, b[1] as nat + 0x100 * b[2] as nat + 0x1_0000 * b[3] as nat);
    ByteOff(b[1] as nat, b[2] as nat + 0x100 * b[3] as nat);
    ByteOff(b[2] as nat, b[3] as nat);
    assert n / 0x1_0000 == n / 0x100 / 0x100 && n / 0x100_0000 == n / 0x100 / 0x100 / 0x100;
  }

  lemma ByteOff(low: nat, high: nat)
    requires low < 256
    ensures (low + 0x100 * high) % 256 == low && (low + 0x100 * high) / 0x100 == high
  {
  }

  /** The blob written for this generation, this manifest text and these file bytes. */
  predicate WrittenAs(codec: Codec, bytes: Bytes, text: Bytes, snap: Snapshot) {
    && snap.generation < 0x1_0000_0000 && |text| < 0x1_0000_0000
    && codec.dec(text) == Some(snap.manifest) && EntriesFit(snap.manifest.files, |snap.image|)
    && bytes == Sealed(Body(snap.generation, text, snap.image))
  }

  lemma WrittenIsAccepted(codec: Codec, bytes: Bytes, text: Bytes, snap: Snapshot)
    requires WrittenAs(codec, bytes, text, snap)
    ensures Restore(codec, bytes) == Success(snap)
  {
    hide CrcNumber, CrcMatches, Payload, EntriesFit, HeaderChecked;
    var body := Body(snap.generation, text, snap.image);
    HeaderOfBody(snap.generation, text, snap.image, U32(CrcNumber(body)));
    SealedMatches(body);
    PayloadOfBody(codec, snap.generation, text, snap.manifest, snap.image, U32(CrcNumber(body)));
  }

  lemma AcceptedHeader(bytes: Bytes, manifestLen: nat)
    requires HeaderChecked(bytes) == Success(manifestLen)
    ensures |bytes| >= HEADER_LEN && manifestLen < 0x1_0000_0000
    ensures bytes[..HEADER_LEN] == Header(ReadU32(bytes[12..16]), manifestLen)
  {
    U32OfRead(bytes[8..12]);
    U32OfRead(bytes[12..16]);
    U32OfRead(bytes[16..20]);
    hide U32, ReadU32;
    assert bytes[..20] == bytes[..8] + bytes[8..12] + bytes[12..16] + bytes[16..20];
  }

  lemma AcceptedIsWritten(codec: Codec, bytes: Bytes, snap: Snapshot) returns (text: Bytes)
    requires Restore(codec, bytes) == Success(snap)
    ensures WrittenAs(codec, bytes, text, snap)
  {
    hide CrcNumber, U32, ReadU32, HeaderChecked, Header;
    var manifestLen := HeaderChecked(bytes).value;
    var crcAt, dataStart := |bytes| - 4, HEADER_LEN + manifestLen;
    text := bytes[HEADER_LEN..dataStart];
    AcceptedHeader(bytes, manifestLen);
    U32OfRead(bytes[12..16]);
    U32OfRead(bytes[crcAt..]);
    assert bytes[..crcAt] == bytes[..HEADER_LEN] + text + snap.image;
    assert bytes == bytes[..crcAt] + bytes[crcAt..];
  }

  /** The reader accepts exactly the blobs in the writer's layout, and reads each as what was laid out. */
  lemma RestoreExact(codec: Codec, bytes: Bytes, snap: Snapshot)
    ensures Restore(codec, bytes) == Success(snap) <==> exists text :: WrittenAs(codec, bytes, text, snap)
  {
    hide Restore, WrittenAs;
    if Restore(codec, bytes) == Success(snap) {
      var text := AcceptedIsWritten(codec, bytes, snap);
    }
    if text :| WrittenAs(codec, bytes, text, snap) {
      WrittenIsAccepted(codec, bytes, text, snap);
    }
  }

  /** The fixed fields by value: generation 0x04030201, five bytes of manifest. */
  lemma HeaderKnown()
    ensures Header(0x04030201, 5) == [80, 71, 82, 83, 78, 80, 49, 0, 1, 0, 0, 0, 1, 2, 3, 4, 5, 0, 0, 0]
  {
  }

  predicate MagicIs(bytes: Bytes) { |bytes| >= 24 && bytes[..8] == [80, 71, 82, 83, 78, 80, 49, 0] }

  predicate VersionIs(bytes: Bytes) { MagicIs(bytes) && bytes[8..12] == [1, 0, 0, 0] }

  predicate RoomFor(bytes: Bytes) { VersionIs(bytes) && ReadU32(bytes[16..20]) <= |bytes| - 24 }

  /** Which complaint is made of the fixed fields and the CRC: the first that applies. */
  lemma FirstComplaint(codec: Codec, bytes: Bytes)
    ensures Restore(codec, bytes) == Failure(TooShort) <==> |bytes| < 24
    ensures Restore(codec, bytes) == Failure(BadMagic) <==> |bytes| >= 24 && !MagicIs(bytes)
    ensures Restore(codec, bytes) == Failure(BadVersion) <==> MagicIs(bytes) && !VersionIs(bytes)
    ensures Restore(codec, bytes) == Failure(ManifestOverruns) <==> VersionIs(bytes) && !RoomFor(bytes)
    ensures Restore(codec, bytes) == Failure(CrcMismatch) <==> RoomFor(bytes) && !CrcMatches(bytes)
  {
    hide CrcNumber, EntriesFit;
    if |bytes| >= 24 {
      U32OfRead(bytes[8..12]);
      assert U32(1) == [1, 0, 0, 0] && ReadU32([1, 0, 0, 0]) == 1;
    }
  }
}
