/**
 The backup container (apps/api/src/backup/backup-format.ts): a plain header, and the framing of
 the entries inside the payload.  Names are sequences of bytes.  In the framing the two lengths
 come first, then the name, then the content.
 */
module BackupFormat {
  import opened Results
  import opened Bytes

  const MAGIC: seq<Byte> := [0x42, 0x4c, 0x42, 0x41, 0x4b, 0, 0, 0]
  const BACKUP_VERSION := 1
  const KDF_ARGON2ID := 1
  const SALT_BYTES := 16
  const IV_BYTES := 12
  const HEADER_BYTES := 44
  const MAX_ENTRY_NAME_BYTES := 1024

  datatype FormatError =
    | TooShort | NotABackup | UnknownVersion | UnknownKdf | UnreasonableMemory | UnreasonableCost | OutOfRange
    | NameTooLong | MidEntry | BadNameLength | ImplausibleSize | PastEnd | TooLarge

  // ---- Entries -------------------------------------------------------------------------

  datatype Entry = Entry(name: seq<Byte>, content: seq<Byte>)

  function Encoded(e: Entry): seq<Byte> {
    BigEndian(|e.name|, 2) + BigEndian(|e.content|, 8) + e.name + e.content
  }

  function EncodeEntry(e: Entry): Result<seq<Byte>, FormatError> {
    if MAX_ENTRY_NAME_BYTES < |e.name| then Err(NameTooLong)
    else if Pow256(8) <= |e.content| then Err(OutOfRange)
    else Ok(Encoded(e))
  }

  predicate Encodable(e: Entry) {
    EncodeEntry(e).Ok?
  }

  predicate AllEncodable(es: seq<Entry>) {
    forall i | 0 <= i < |es| :: Encodable(es[i])
  }

  function EncodeAll(es: seq<Entry>): seq<Byte> {
    if es == [] then [] else Encoded(es[0]) + EncodeAll(es[1..])
  }

  function ContentBytes(es: seq<Entry>): nat {
    if es == [] then 0 else |es[0].content| + ContentBytes(es[1..])
  }

  function Prepend(e: Entry, r: Result<seq<Entry>, FormatError>): Result<seq<Entry>, FormatError> {
    if r.Ok? then Ok([e] + r.value) else r
  }

  /** One reading step, at an offset into the whole payload: the entry and where the next one starts. */
  function EntryAt(p: seq<Byte>, offset: nat, total: nat, max: nat): (r: Result<(Entry, nat), FormatError>)
    requires offset < |p|
    ensures r.Ok? ==> offset < r.value.1 <= |p| && |r.value.0.content| <= max
  {
    if |p| < offset + 10 then Err(MidEntry)
    else
      var n := Value(p[offset..offset + 2]);
      var size := Value(p[offset + 2..offset + 10]);
      if n == 0 || MAX_ENTRY_NAME_BYTES < n then Err(BadNameLength)
      else if max < size then Err(ImplausibleSize)
      else if |p| < offset + 10 + n + size then Err(PastEnd)
      else if max < total + size then Err(TooLarge)
      else
        var next := offset + 10 + n + size;
        Ok((Entry(p[offset + 10..offset + 10 + n], p[offset + 10 + n..next]), next))
  }

  /** Reads the entries from an offset on; total is what the entries before it held. */
  function Decode(p: seq<Byte>, offset: nat, total: nat, max: nat): Result<seq<Entry>, FormatError>
    requires offset <= |p|
    decreases |p| - offset
  {
    if offset == |p| then Ok([])
    else
      match EntryAt(p, offset, total, max)
      case Err(e) => Err(e)
      case Ok((entry, next)) => Prepend(entry, Decode(p, next, total + |entry.content|, max))
  }

  method ReadEntry(payload: seq<Byte>, at: nat, total: nat, maxTotalBytes: nat) returns (r: Result<(Entry, nat), FormatError>)
    requires at < |payload|
    ensures r == EntryAt(payload, at, total, maxTotalBytes)
  {
    var offset := at;
    if offset + 10 > |payload| {
      return Err(MidEntry);
    }
    var nameLength := Value(payload[offset..offset + 2]);
    var size := Value(payload[offset + 2..offset + 10]);
    offset := offset + 10;
    if nameLength == 0 || nameLength > MAX_ENTRY_NAME_BYTES {
      return Err(BadNameLength);
    }
    if size > maxTotalBytes {
      return Err(ImplausibleSize);
    }
    if offset + nameLength + size > |payload| {
      return Err(PastEnd);
    }
    var name := payload[offset..offset + nameLength];
    offset := offset + nameLength;
    var content := payload[offset..offset + size];
    offset := offset + size;
    if total + size > maxTotalBytes {
      return Err(TooLarge);
    }
    r := Ok((Entry(name, content), offset));
  }

  method DecodeEntries(payload: seq<Byte>, maxTotalBytes: nat) returns (r: Result<seq<Entry>, FormatError>)
    ensures r == Decode(payload, 0, 0, maxTotalBytes)
  {
    hide EntryAt;
    var entries: seq<Entry> := [];
    var offset: nat, total: nat := 0, 0;
    JoinedNothing(Decode(payload, 0, 0, maxTotalBytes));
    while offset < |payload|
      invariant offset <= |payload|
      invariant Decode(payload, 0, 0, maxTotalBytes) == Joined(entries, Decode(payload, offset, total, maxTotalBytes))
    {
      var read := ReadEntry(payload, offset, total, maxTotalBytes);
      if read.Err? {
        return Err(read.error);
      }
      var (entry, next) := read.value;
      offset := next;
      total := total + |entry.content|;
      JoinedPrepend(entries, entry, Decode(payload, offset, total, maxTotalBytes));
      entries := entries + [entry];
    }
    assert entries + [] == entries;
    r := Ok(entries);
  }

  function Joined(es: seq<Entry>, r: Result<seq<Entry>, FormatError>): Result<seq<Entry>, FormatError> {
    if r.Ok? then Ok(es + r.value) else r
  }

  lemma JoinedNothing(r: Result<seq<Entry>, FormatError>)
    ensures Joined([], r) == r
  {
    if r.Ok? {
      assert [] + r.value == r.value;
    }
  }

  lemma JoinedPrepend(es: seq<Entry>, e: Entry, r: Result<seq<Entry>, FormatError>)
    ensures Joined(es, Prepend(e, r)) == Joined(es + [e], r)
  {
    if r.Ok? {
      assert es + ([e] + r.value) == es + [e] + r.value;
    }
  }

  // ---- Round trips ---------------------------------------------------------------------

  /** Reading back an encoded entry, wherever it starts. */
  lemma HeadOf(p: seq<Byte>, offset: nat, e: Entry, rest: seq<Byte>)
    requires Encodable(e) && offset <= |p| && p[offset..] == Encoded(e) + rest
    ensures var n := |e.name|; var next := offset + 10 + n + |e.content|;
      && next <= |p| && Value(p[offset..offset + 2]) == n && Value(p[offset + 2..offset + 10]) == |e.content|
      && p[offset + 10..offset + 10 + n] == e.name && p[offset + 10 + n..next] == e.content && p[next..] == rest
  {
    var q := p[offset..];
    var n, size := |e.name|, |e.content|;
    assert Pow256(2) == 65536 by {
      assert Pow256(1) == 256 * Pow256(0);
    }
    ValueOfBigEndian(n, 2);
    ValueOfBigEndian(size, 8);
    assert p[offset..offset + 2] == q[0..2] == BigEndian(n, 2);
    assert p[offset + 2..offset + 10] == q[2..10] == BigEndian(size, 8);
    assert p[offset + 10..offset + 10 + n] == q[10..10 + n] == e.name;
    assert p[offset + 10 + n..offset + 10 + n + size] == q[10 + n..10 + n + size] == e.content;
    assert p[offset + 10 + n + size..] == q[10 + n + size..] == rest;
  }

  /** One entry is read back exactly, or refused for the one reason it may be refused. */
  lemma EntryStep(p: seq<Byte>, offset: nat, e: Entry, rest: seq<Byte>, total: nat, max: nat)
    requires Encodable(e) && offset <= |p| && p[offset..] == Encoded(e) + rest
    ensures offset < |p|
    ensures EntryAt(p, offset, total, max) ==
      if e.name == [] then Err(BadNameLength)
      else if max < |e.content| then Err(ImplausibleSize)
      else if max < total + |e.content| then Err(TooLarge)
      else Ok((e, offset + |Encoded(e)|))
    ensures offset + |Encoded(e)| <= |p| && p[offset + |Encoded(e)|..] == rest
  {
    HeadOf(p, offset, e, rest);
  }

  predicate Named(es: seq<Entry>) {
    forall i | 0 <= i < |es| :: es[i].name != []
  }

  /** Entries that can be encoded and would be accepted again. */
  predicate Sound(es: seq<Entry>) {
    AllEncodable(es) && Named(es)
  }

  lemma SoundTail(es: seq<Entry>)
    requires Sound(es) && es != []
    ensures Encodable(es[0]) && es[0].name != [] && Sound(es[1..])
  {
    forall i | 0 <= i < |es[1..]|
      ensures Encodable(es[1..][i]) && es[1..][i].name != []
    {
      assert Encodable(es[i + 1]) && es[i + 1].name != [];
    }
  }

  lemma SoundCons(e: Entry, rest: seq<Entry>)
    requires Encodable(e) && e.name != [] && Sound(rest)
    ensures Sound([e] + rest)
    ensures EncodeAll([e] + rest) == Encoded(e) + EncodeAll(rest)
    ensures ContentBytes([e] + rest) == |e.content| + ContentBytes(rest)
  {
    var es := [e] + rest;
    assert es[1..] == rest;
    forall i | 0 <= i < |es|
      ensures Encodable(es[i]) && es[i].name != []
    {
      assert i != 0 ==> Encodable(rest[i - 1]) && rest[i - 1].name != [];
    }
  }

  /** An entry in front of what decodes already. */
  lemma DecodeCons(p: seq<Byte>, offset: nat, e: Entry, rest: seq<Byte>, total: nat, max: nat, others: seq<Entry>)
    requires Encodable(e) && e.name != [] && total + |e.content| <= max
    requires offset + |Encoded(e)| <= |p| && p[offset..] == Encoded(e) + rest
    requires Decode(p, offset + |Encoded(e)|, total + |e.content|, max) == Ok(others)
    ensures Decode(p, offset, total, max) == Ok([e] + others)
  {
    hide EntryAt, Encoded;
    EntryStep(p, offset, e, rest, total, max);
  }

  lemma {:induction false} DecodeEncoded(p: seq<Byte>, offset: nat, es: seq<Entry>, total: nat, max: nat)
    requires Sound(es) && total + ContentBytes(es) <= max && offset <= |p| && p[offset..] == EncodeAll(es)
    ensures Decode(p, offset, total, max) == Ok(es)
    decreases |es|
  {
    hide EntryAt, Encoded, EncodeEntry;
    if es != [] {
      var e, others, rest := es[0], es[1..], EncodeAll(es[1..]);
      SoundTail(es);
      EntryStep(p, offset, e, rest, total, max);
      DecodeEncoded(p, offset + |Encoded(e)|, others, total + |e.content|, max);
      DecodeCons(p, offset, e, rest, total, max, others);
      assert es == [e] + others;
    }
  }

  /** The bytes an entry was read from are its encoding. */
  lemma EntryReadBack(p: seq<Byte>, offset: nat, total: nat, max: nat)
    requires offset < |p| && EntryAt(p, offset, total, max).Ok?
    ensures var (e, next) := EntryAt(p, offset, total, max).value;
      Encodable(e) && e.name != [] && Encoded(e) + p[next..] == p[offset..] && total + |e.content| <= max
  {
    var (e, next) := EntryAt(p, offset, total, max).value;
    BigEndianOfValue(p[offset..offset + 2]);
    BigEndianOfValue(p[offset + 2..offset + 10]);
    ValueBounded(p[offset + 2..offset + 10]);
    assert p[offset..] == p[offset..offset + 2] + p[offset + 2..offset + 10] + e.name + e.content + p[next..];
  }

  /** Whatever is accepted encodes back to the same bytes, is named and stays within the cap. */
  lemma {:induction false} AcceptedReencodes(p: seq<Byte>, offset: nat, total: nat, max: nat)
    requires offset <= |p| && Decode(p, offset, total, max).Ok?
    ensures var es := Decode(p, offset, total, max).value;
      EncodeAll(es) == p[offset..] && Sound(es) && (es != [] ==> total + ContentBytes(es) <= max)
    decreases |p| - offset
  {
    hide EntryAt, Encoded, EncodeEntry;
    if offset < |p| {
      var (e, next) := EntryAt(p, offset, total, max).value;
      AcceptedReencodes(p, next, total + |e.content|, max);
      EntryReadBack(p, offset, total, max);
      SoundCons(e, Decode(p, next, total + |e.content|, max).value);
    }
  }

  /** Entries that can be encoded come back exactly when all have names and their contents fit. */
  lemma EntriesRoundTrip(es: seq<Entry>, max: nat)
    requires AllEncodable(es)
    ensures Decode(EncodeAll(es), 0, 0, max) == Ok(es) <==> Named(es) && ContentBytes(es) <= max
  {
    var p := EncodeAll(es);
    assert p[0..] == p;
    if Named(es) && ContentBytes(es) <= max {
      DecodeEncoded(p, 0, es, 0, max);
    }
    if Decode(p, 0, 0, max) == Result.Ok(es) {
      AcceptedReencodes(p, 0, 0, max);
    }
  }

  // ---- Truncated payloads --------------------------------------------------------------

  /** Does the cut fall between two entries? */
  predicate OnBoundary(es: seq<Entry>, n: nat) {
    n == 0 || (es != [] && |Encoded(es[0])| <= n && OnBoundary(es[1..], n - |Encoded(es[0])|))
  }

  lemma CutInside(p: seq<Byte>, offset: nat, e: Entry, n: nat, total: nat, max: nat)
    requires Encodable(e) && 0 < n < |Encoded(e)| && offset <= |p| && p[offset..] == Encoded(e)[..n]
    ensures offset < |p| && EntryAt(p, offset, total, max).Err?
  {
    hide Encoded, Value;
    var whole := p[..offset] + Encoded(e);
    assert whole[offset..] == Encoded(e) + [];
    HeadOf(whole, offset, e, []);
    assert p == whole[..offset + n];
    if 10 <= n {
      assert p[offset..offset + 2] == whole[offset..offset + 2];
      assert p[offset + 2..offset + 10] == whole[offset + 2..offset + 10];
    }
  }

  /** A payload cut short is refused exactly when the cut is not between two entries. */
  lemma {:induction false} TruncationRefused(p: seq<Byte>, offset: nat, es: seq<Entry>, n: nat, total: nat, max: nat)
    requires Sound(es) && total + ContentBytes(es) <= max && n <= |EncodeAll(es)|
    requires offset <= |p| && p[offset..] == EncodeAll(es)[..n]
    ensures Decode(p, offset, total, max).Ok? <==> OnBoundary(es, n)
    decreases |es|
  {
    hide EntryAt, Encoded, EncodeEntry;
    if 0 < n {
      var e, rest := es[0], EncodeAll(es[1..]);
      SoundTail(es);
      if n < |Encoded(e)| {
        assert EncodeAll(es)[..n] == Encoded(e)[..n];
        CutInside(p, offset, e, n, total, max);
      } else {
        var m := n - |Encoded(e)|;
        assert EncodeAll(es)[..n] == Encoded(e) + rest[..m];
        EntryStep(p, offset, e, rest[..m], total, max);
        TruncationRefused(p, offset + |Encoded(e)|, es[1..], m, total + |e.content|, max);
      }
    }
  }

  // ---- The header ----------------------------------------------------------------------

  datatype Header = Header(
    version: nat, kdf: nat, memoryKiB: nat, timeCost: nat, parallelism: nat, salt: seq<Byte>, iv: seq<Byte>)

  /** The numbers fit their fields. */
  predicate Writable(h: Header) {
    h.version < 256 && h.kdf < 256 && h.memoryKiB < Pow256(4) && h.timeCost < 256 && h.parallelism < 256
  }

  function Fields(h: Header): seq<Byte>
    requires Writable(h)
  {
    MAGIC + [h.version, h.kdf] + BigEndian(h.memoryKiB, 4) + [h.timeCost, h.parallelism] + h.salt + h.iv
  }

  function Zeros(n: nat): (r: seq<Byte>)
    ensures |r| == n && forall i | 0 <= i < n :: r[i] == 0
  {
    seq(n, _ => 0)
  }

  /** A buffer of fixed size: what does not fit is cut off, what is missing stays zero. */
  function Fit(s: seq<Byte>, n: nat): (r: seq<Byte>)
    ensures |r| == n
  {
    if n <= |s| then s[..n] else s + Zeros(n - |s|)
  }

  function EncodeHeader(h: Header): (r: Result<seq<Byte>, FormatError>)
    ensures r.Ok? ==> |r.value| == HEADER_BYTES
  {
    if !Writable(h) then Err(OutOfRange) else Ok(Fit(Fields(h), HEADER_BYTES))
  }

  predicate ReasonableMemory(memoryKiB: nat) {
    8 * 1024 <= memoryKiB <= 1024 * 1024
  }

  predicate ReasonableCost(timeCost: nat, parallelism: nat) {
    1 <= timeCost <= 16 && 1 <= parallelism <= 16
  }

  function DecodeHeader(b: seq<Byte>): Result<Header, FormatError> {
    if |b| < HEADER_BYTES then Err(TooShort)
    else if b[..8] != MAGIC then Err(NotABackup)
    else if b[8] != BACKUP_VERSION then Err(UnknownVersion)
    else if b[9] != KDF_ARGON2ID then Err(UnknownKdf)
    else if !ReasonableMemory(Value(b[10..14])) then Err(UnreasonableMemory)
    else if !ReasonableCost(b[14], b[15]) then Err(UnreasonableCost)
    else Ok(Header(b[8], b[9], Value(b[10..14]), b[14], b[15], b[16..32], b[32..44]))
  }

  /** What the header of a backup this program makes looks like. */
  predicate Proper(h: Header) {
    && h.version == BACKUP_VERSION && h.kdf == KDF_ARGON2ID
    && ReasonableMemory(h.memoryKiB) && ReasonableCost(h.timeCost, h.parallelism)
    && |h.salt| == SALT_BYTES && |h.iv| == IV_BYTES
  }

  lemma FieldsAt(h: Header)
    requires Writable(h)
    ensures var f := Fields(h);
      && 16 <= |f| && f[..8] == MAGIC && f[8] == h.version && f[9] == h.kdf
      && f[10..14] == BigEndian(h.memoryKiB, 4) && f[14] == h.timeCost && f[15] == h.parallelism
      && f[16..] == h.salt + h.iv
  {
    var f := Fields(h);
    var a := MAGIC + [h.version, h.kdf];
    var b := a + BigEndian(h.memoryKiB, 4);
    assert f == b + [h.timeCost, h.parallelism] + h.salt + h.iv;
    assert f[..8] == MAGIC;
    assert f[10..14] == BigEndian(h.memoryKiB, 4);
    assert f[16..] == h.salt + h.iv;
  }

  /** A header is read back as it was written exactly when it is proper. */
  lemma HeaderRoundTrip(h: Header)
    requires Writable(h)
    ensures DecodeHeader(EncodeHeader(h).value) == Ok(h) <==> Proper(h)
  {
    var f, b := Fields(h), EncodeHeader(h).value;
    FieldsAt(h);
    ValueOfBigEndian(h.memoryKiB, 4);
    assert b[..8] == f[..8] && b[8] == f[8] && b[9] == f[9] && b[14] == f[14] && b[15] == f[15];
    assert b[10..14] == f[10..14];
    if |h.salt| == SALT_BYTES && |h.iv| == IV_BYTES {
      assert b == f;
      assert b[16..32] == h.salt && b[32..44] == h.iv;
    }
  }

  /** Accepted headers are proper and encode back to the bytes they were read from. */
  lemma AcceptedHeaderReencodes(b: seq<Byte>)
    requires DecodeHeader(b).Ok?
    ensures var h := DecodeHeader(b).value; Proper(h) && EncodeHeader(h) == Ok(b[..HEADER_BYTES])
  {
    var h := DecodeHeader(b).value;
    ValueBounded(b[10..14]);
    BigEndianOfValue(b[10..14]);
    FieldsAt(h);
    var f := Fields(h);
    assert f == f[..8] + [f[8], f[9]] + f[10..14] + [f[14], f[15]] + f[16..];
    assert b[..HEADER_BYTES] == b[..8] + [b[8], b[9]] + b[10..14] + [b[14], b[15]] + (b[16..32] + b[32..44]);
    assert f == b[..HEADER_BYTES];
    assert f[..HEADER_BYTES] == f;
  }

  function Shorter(m: nat, n: nat): nat {
    if m < n then m else n
  }

  /** Writes the fields into a zeroed buffer one after the other. */
  method WriteHeader(h: Header) returns (r: Result<seq<Byte>, FormatError>)
    ensures r == EncodeHeader(h)
  {
    if !(h.version < 256 && h.kdf < 256 && h.memoryKiB < Pow256(4) && h.timeCost < 256 && h.parallelism < 256) {
      return Err(OutOfRange);
    }
    var buffer := new Byte[HEADER_BYTES](_ => 0);
    var offset := Copy(MAGIC, buffer, 0, []);
    ghost var done := [] + MAGIC;
    offset := Copy([h.version, h.kdf], buffer, offset, done);
    done := done + [h.version, h.kdf];
    offset := Copy(BigEndian(h.memoryKiB, 4), buffer, offset, done);
    done := done + BigEndian(h.memoryKiB, 4);
    offset := Copy([h.timeCost, h.parallelism], buffer, offset, done);
    done := done + [h.timeCost, h.parallelism];
    offset := Copy(h.salt, buffer, offset, done);
    done := done + h.salt;
    offset := Copy(h.iv, buffer, offset, done);
    assert [] + MAGIC == MAGIC;
    r := Ok(buffer[..]);
  }

  /** Copies as much as fits behind what was written; the rest of the buffer is left alone. */
  method Copy(source: seq<Byte>, target: array<Byte>, at: nat, ghost done: seq<Byte>) returns (next: nat)
    requires at == Shorter(|done|, target.Length) && target[..] == Fit(done, target.Length)
    modifies target
    ensures next == Shorter(|done + source|, target.Length) && target[..] == Fit(done + source, target.Length)
  {
    var count := if at + |source| <= target.Length then |source| else target.Length - at;
    for i := 0 to count
      invariant forall k | 0 <= k < target.Length && !(at <= k < at + i) :: target[k] == old(target[k])
      invariant forall k | at <= k < at + i :: target[k] == source[k - at]
    {
      target[at + i] := source[i];
    }
    next := at + count;
    forall k | 0 <= k < target.Length
      ensures target[k] == Fit(done + source, target.Length)[k]
    {
      assert old(target[k]) == Fit(done, target.Length)[k];
    }
  }

  // ---- The bytes -----------------------------------------------------------------------

  function NameBytes(es: seq<Entry>): nat {
    if es == [] then 0 else |es[0].name| + NameBytes(es[1..])
  }

  /** What is written is ten bytes for each entry, its name and its content. */
  lemma {:induction false} EncodedLength(es: seq<Entry>)
    ensures |EncodeAll(es)| == 10 * |es| + NameBytes(es) + ContentBytes(es)
  {
    if es != [] {
      EncodedLength(es[1..]);
    }
  }

  /** An entry: two bytes of name length, eight of content length, the name, the content. */
  lemma EntryLayout(e: Entry)
    requires Encodable(e)
    ensures var p, n := Encoded(e), |e.name|;
      && |e.name| <= 1024 && |p| == 10 + n + |e.content|
      && Value(p[..2]) == n && Value(p[2..10]) == |e.content|
      && p[10..10 + n] == e.name && p[10 + n..] == e.content
  {
    hide Value;
    var p := Encoded(e);
    assert p[0..] == p + [];
    HeadOf(p, 0, e, []);
    assert p[10 + |e.name|..10 + |e.name| + |e.content|] == p[10 + |e.name|..];
  }

  /** A header: the magic bytes, version, key derivation, memory in four bytes, two costs, salt and
      initialization vector; accepted exactly for version 1, key derivation 1, 8 MiB to 1 GiB and costs from 1
      to 16. */
  lemma HeaderLayout(h: Header)
    requires Writable(h) && |h.salt| == 16 && |h.iv| == 12
    ensures var b := EncodeHeader(h).value;
      && |b| == 44 && b[..8] == [0x42, 0x4c, 0x42, 0x41, 0x4b, 0, 0, 0]
      && b[8] == h.version && b[9] == h.kdf && Value(b[10..14]) == h.memoryKiB
      && b[14] == h.timeCost && b[15] == h.parallelism && b[16..32] == h.salt && b[32..] == h.iv
      && (DecodeHeader(b).Ok? <==>
            && h.version == 1 && h.kdf == 1 && 8_192 <= h.memoryKiB <= 1_048_576
            && 1 <= h.timeCost <= 16 && 1 <= h.parallelism <= 16)
  {
    var f, b := Fields(h), EncodeHeader(h).value;
    FieldsAt(h);
    ValueOfBigEndian(h.memoryKiB, 4);
    assert b == f;
    assert f[16..][..16] == h.salt && f[16..][16..] == h.iv;
    assert b[16..32] == f[16..][..16] && b[32..] == f[16..][16..];
  }

  /** Why a header is refused: the first of the checks that fails. */
  lemma HeaderRefusals(b: seq<Byte>)
    ensures DecodeHeader(b) == Err(TooShort) <==> |b| < 44
    ensures 44 <= |b| ==> (DecodeHeader(b) == Err(NotABackup) <==> b[..8] != [0x42, 0x4c, 0x42, 0x41, 0x4b, 0, 0, 0])
    ensures 44 <= |b| && b[..8] == [0x42, 0x4c, 0x42, 0x41, 0x4b, 0, 0, 0] ==>
      && (DecodeHeader(b) == Err(UnknownVersion) <==> b[8] != 1)
      && (DecodeHeader(b) == Err(UnknownKdf) <==> b[8] == 1 && b[9] != 1)
      && (DecodeHeader(b) == Err(UnreasonableMemory) <==> b[8] == 1 && b[9] == 1 && !(8_192 <= Value(b[10..14]) <= 1_048_576))
      && (DecodeHeader(b) == Err(UnreasonableCost) <==>
            && b[8] == 1 && b[9] == 1 && 8_192 <= Value(b[10..14]) <= 1_048_576
            && !(1 <= b[14] <= 16 && 1 <= b[15] <= 16))
  {
    hide Value;
  }

  /** Why an entry is refused, in the order of the checks. */
  lemma EntryRefusals(p: seq<Byte>, offset: nat, total: nat, max: nat)
    requires offset < |p|
    ensures var r := EntryAt(p, offset, total, max);
      if |p| - offset < 10 then r == Err(MidEntry)
      else
        var n, size := Value(p[offset..offset + 2]), Value(p[offset + 2..offset + 10]);
        && (r == Err(BadNameLength) <==> !(1 <= n <= 1024))
        && (r == Err(ImplausibleSize) <==> 1 <= n <= 1024 && max < size)
        && (r == Err(PastEnd) <==> 1 <= n <= 1024 && size <= max && |p| - offset - 10 < n + size)
        && (r == Err(TooLarge) <==> 1 <= n <= 1024 && size <= max && n + size <= |p| - offset - 10 && max - size < total)
        && (r.Ok? <==> 1 <= n <= 1024 && n + size <= |p| - offset - 10 && total + size <= max)
  {
    hide Value;
  }
}
