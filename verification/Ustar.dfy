/**
 A ustar printer, and the proof that the tar reader undoes it.

 The printer is the reference the reader is judged against: plain files with or without the
 `prefix` field, GNU long names, and the metadata entries (pax headers, directories) the
 reader skips. Header bytes the reader does not look at are arbitrary.
 */
module Ustar {
  import Paths
  import opened Wrappers
  import opened Tar

  function Zeros(n: nat): Bytes {
    if n == 0 then [] else Zeros(n - 1) + [NUL]
  }

  function PadTo(text: Bytes, width: nat): Bytes
    requires |text| <= width
  {
    text + Zeros(width - |text|)
  }

  function Octal(n: nat, width: nat): Bytes {
    if width == 0 then [] else Octal(n / 8, width - 1) + [48 + n % 8]
  }

  /** A header but for its size: the fields the reader uses, and the bytes between them. */
  datatype Head = Head(name: Bytes, ids: Bytes, sizeEnd: Byte, stamps: Bytes, kind: Byte,
                       link: Bytes, prefix: Bytes, tail: Bytes)

  predicate GoodHead(h: Head) {
    && |h.name| <= 100 && NUL !in h.name && |h.prefix| <= 155 && NUL !in h.prefix
    && |h.ids| == 24 && |h.stamps| == 20 && |h.link| == 188 && |h.tail| == 12
    && (h.sizeEnd == NUL || h.sizeEnd == SPACE)
  }

  function SizeField(h: Head, size: nat): Bytes {
    Octal(size, 11) + [h.sizeEnd]
  }

  function BeforeSize(h: Head): Bytes
    requires |h.name| <= 100
  {
    PadTo(h.name, 100) + h.ids
  }

  function AfterSize(h: Head): Bytes {
    h.stamps + [h.kind] + h.link
  }

  function PrintHeader(h: Head, size: nat): Bytes
    requires GoodHead(h)
  {
    BeforeSize(h) + SizeField(h, size) + AfterSize(h) + PadTo(h.prefix, 155) + h.tail
  }

  datatype Record = Record(head: Head, data: Bytes)

  function HeaderOf(r: Record): Header {
    Header(|r.data|, r.head.kind, Decoded(r.head.name), Decoded(r.head.prefix))
  }

  // ---------------------------------------------------------------- fields read back

  lemma {:induction false} ZerosAre(n: nat)
    ensures |Zeros(n)| == n && AllZero(Zeros(n))
  {
    if n != 0 {
      ZerosAre(n - 1);
    }
  }

  lemma {:induction false} ZerosSlice(n: nat, k: nat)
    requires k <= n
    ensures |Zeros(n)| == n && Zeros(n)[..k] == Zeros(k)
  {
    if k < n {
      ZerosSlice(n - 1, k);
      assert Zeros(n)[..k] == Zeros(n - 1)[..k];
    } else {
      ZerosAre(n);
    }
  }

  lemma {:induction false} UpToNulStops(text: Bytes, rest: Bytes)
    requires NUL !in text && (rest == [] || rest[0] == NUL)
    ensures UpToNul(text + rest) == text
  {
    if text == [] {
      assert text + rest == rest;
    } else {
      UpToNulStops(text[1..], rest);
      assert (text + rest)[1..] == text[1..] + rest;
    }
  }

  lemma {:induction false} PaddedReads(text: Bytes, width: nat)
    requires |text| <= width && NUL !in text
    ensures |PadTo(text, width)| == width && UpToNul(PadTo(text, width)) == text
  {
    ZerosAre(width - |text|);
    UpToNulStops(text, Zeros(width - |text|));
  }

  lemma {:induction false} OctalDigits(n: nat, width: nat)
    ensures |Octal(n, width)| == width
    ensures forall i :: 0 <= i < width ==> IsOctal(Octal(n, width)[i])
  {
    if width != 0 {
      OctalDigits(n / 8, width - 1);
    }
  }

  function Pow8(k: nat): nat { if k == 0 then 1 else 8 * Pow8(k - 1) }

  lemma {:induction false} OctalValueLast(front: Bytes, digit: Byte)
    ensures OctalValue(front + [digit]) == 8 * OctalValue(front) + (digit as int - 48)
  {
    assert (front + [digit])[..|front|] == front;
  }

  lemma {:induction false} OctalReads(n: nat, width: nat)
    requires n < Pow8(width)
    ensures OctalValue(Octal(n, width)) == n
  {
    if width != 0 {
      OctalReads(n / 8, width - 1);
      OctalValueLast(Octal(n / 8, width - 1), 48 + n % 8);
    }
  }

  lemma {:induction false} SizeFits(size: nat)
    requires size <= MAX_PLUGIN_BYTES
    ensures size < Pow8(11)
  {
    assert Pow8(3) == 512;
    assert Pow8(6) == 512 * Pow8(3);
    assert Pow8(9) == 512 * Pow8(6);
    assert Pow8(11) == 64 * Pow8(9);
  }

  lemma {:induction false} AllDigits(text: Bytes)
    requires forall i :: 0 <= i < |text| ==> IsOctal(text[i])
    ensures DigitPrefix(text) == text && TrimStart(text) == text && TrimEnd(text) == text
  {
    if text != [] {
      AllDigits(text[1..]);
    }
  }

  lemma {:induction false} TrimSpace(text: Bytes)
    requires text != [] && forall i :: 0 <= i < |text| ==> IsOctal(text[i])
    ensures TrimEnd(TrimStart(text + [SPACE])) == text
  {
    AllDigits(text);
    assert (text + [SPACE])[0] == text[0] && IsOctal(text[0]);
    assert (text + [SPACE])[..|text|] == text;
  }

  lemma {:induction false} SizeReads(h: Head, size: nat)
    requires (h.sizeEnd == NUL || h.sizeEnd == SPACE) && size <= MAX_PLUGIN_BYTES
    ensures var text := TrimEnd(TrimStart(Decoded(UpToNul(SizeField(h, size)))));
            text != [] && ParseIntOctal(text) == Some(size)
  {
    var digits := Octal(size, 11);
    OctalDigits(size, 11);
    AllDigits(digits);
    SizeFits(size);
    OctalReads(size, 11);
    assert IsOctal(digits[0]);
    assert NUL !in digits;
    if h.sizeEnd == NUL {
      UpToNulStops(digits, [NUL]);
    } else {
      UpToNulStops(digits + [SPACE], []);
      assert digits + [SPACE] + [] == digits + [SPACE];
      TrimSpace(digits);
    }
  }

  lemma {:induction false} Slices(a: Bytes, b: Bytes, c: Bytes, d: Bytes, e: Bytes)
    ensures var all := a + b + c + d + e;
            && (forall i :: 0 <= i < |a| ==> all[i] == a[i])
            && (forall i :: 0 <= i < |c| ==> all[|a| + |b| + i] == c[i])
            && all[|a|..|a| + |b|] == b
            && all[|a| + |b| + |c|..|a| + |b| + |c| + |d|] == d
  {
  }

  lemma {:induction false} HeaderSlices(h: Head, size: nat)
    requires GoodHead(h)
    ensures var header := PrintHeader(h, size);
            && |header| == BLOCK && header[156] == h.kind
            && header[..100] == PadTo(h.name, 100)
            && header[124..136] == SizeField(h, size)
            && header[345..500] == PadTo(h.prefix, 155)
  {
    PaddedReads(h.name, 100);
    PaddedReads(h.prefix, 155);
    OctalDigits(size, 11);
    var before, field, after, prefix := BeforeSize(h), SizeField(h, size), AfterSize(h), PadTo(h.prefix, 155);
    Slices(before, field, after, prefix, h.tail);
    var header := PrintHeader(h, size);
    assert after[20] == h.kind && header[124 + 12 + 20] == after[20];
    assert before[..100] == PadTo(h.name, 100);
    assert header[..100] == before[..100];
  }

  /** A printed header reads back as what was printed, but for a byte order mark in front of a name. */
  lemma {:induction false} HeaderReads(h: Head, size: nat)
    requires GoodHead(h) && size <= MAX_PLUGIN_BYTES
    ensures var header := PrintHeader(h, size);
            |header| == BLOCK && !AllZero(header)
            && Decode(header) == Header(size, h.kind, Decoded(h.name), Decoded(h.prefix))
  {
    HeaderSlices(h, size);
    PaddedReads(h.name, 100);
    PaddedReads(h.prefix, 155);
    SizeReads(h, size);
    OctalDigits(size, 11);
    assert PrintHeader(h, size)[124] == SizeField(h, size)[0] == Octal(size, 11)[0];
    assert IsOctal(Octal(size, 11)[0]);
  }

  /** The header block of a record; blank for one no header can carry. */
  function Encode(r: Record): Bytes {
    if GoodHead(r.head) then PrintHeader(r.head, |r.data|) else Zeros(BLOCK)
  }

  // ---------------------------------------------------------------- archives, possibly cut short

  // Framing is proved once for every header code: any `encode` that yields whole blocks which
  // `read` reads back.

  datatype Records = Nil | Cons(r: Record, rest: Records)

  ghost predicate CodesFor(encode: Record -> Bytes, read: Bytes -> Option<Header>, rs: Records) {
    rs.Cons? ==>
      |encode(rs.r)| == BLOCK && read(encode(rs.r)) == Some(HeaderOf(rs.r)) && CodesFor(encode, read, rs.rest)
  }

  function PrintRecords(encode: Record -> Bytes, rs: Records): Bytes {
    match rs
    case Nil => Zeros(2 * BLOCK)
    case Cons(r, rest) =>
      encode(r) + r.data + Zeros(Padded(|r.data|) - |r.data|) + PrintRecords(encode, rest)
  }

  /** The first `n` bytes; all of them, or none, when `n` lies outside. */
  function Clip(bytes: Bytes, n: int): Bytes {
    if n <= 0 then [] else if n >= |bytes| then bytes else bytes[..n]
  }

  /** The bytes are an archive of these records up to some point, which may be anywhere. */
  ghost predicate IsCutOf(read: Bytes -> Option<Header>, bytes: Bytes, rs: Records)
    decreases rs
  {
    |bytes| >= BLOCK ==>
      match rs
      case Nil => read(bytes[..BLOCK]) == None
      case Cons(r, rest) =>
        && read(bytes[..BLOCK]) == Some(HeaderOf(r))
        && (|bytes| >= BLOCK + |r.data| ==>
              bytes[BLOCK..][..|r.data|] == r.data && IsCutOf(read, Beyond(bytes[BLOCK..], Padded(|r.data|)), rest))
  }

  lemma {:induction false} CutSlices(head: Bytes, data: Bytes, pad: Bytes, tail: Bytes, n: nat)
    requires |head| == BLOCK && |head| + |data| <= n <= |head + data + pad + tail|
    ensures var cut := (head + data + pad + tail)[..n];
            && cut[..BLOCK] == head
            && |cut[BLOCK..]| == n - BLOCK && cut[BLOCK..][..|data|] == data
            && Beyond(cut[BLOCK..], |data| + |pad|) == Clip(tail, n - BLOCK - |data| - |pad|)
  {
    var cut := (head + data + pad + tail)[..n];
    assert cut[BLOCK..] == (data + pad + tail)[..n - BLOCK];
    if n >= BLOCK + |data| + |pad| {
      assert Beyond(cut[BLOCK..], |data| + |pad|) == tail[..n - BLOCK - |data| - |pad|];
    }
  }

  /** One record in front of a tail, whatever its header looks like. */
  lemma {:induction false} CutOfRecord(read: Bytes -> Option<Header>, head: Bytes, pad: Bytes, tail: Bytes, n: nat,
                                       r: Record, rest: Records)
    requires |head| == BLOCK && read(head) == Some(HeaderOf(r))
    requires |r.data| + |pad| == Padded(|r.data|) && n <= |head + r.data + pad + tail|
    requires IsCutOf(read, Clip(tail, n - BLOCK - Padded(|r.data|)), rest)
    ensures IsCutOf(read, (head + r.data + pad + tail)[..n], Cons(r, rest))
  {
    var cut := (head + r.data + pad + tail)[..n];
    if n >= BLOCK + |r.data| {
      CutSlices(head, r.data, pad, tail, n);
    } else if n >= BLOCK {
      assert cut[..BLOCK] == head;
    }
  }

  lemma {:induction false} ClipOfRecord(read: Bytes -> Option<Header>, head: Bytes, pad: Bytes, tail: Bytes, n: int,
                                        r: Record, rest: Records)
    requires |head| == BLOCK && read(head) == Some(HeaderOf(r))
    requires |r.data| + |pad| == Padded(|r.data|)
    requires IsCutOf(read, Clip(tail, n - BLOCK - Padded(|r.data|)), rest)
    ensures IsCutOf(read, Clip(head + r.data + pad + tail, n), Cons(r, rest))
  {
    var all := head + r.data + pad + tail;
    var m: nat := if n < 0 then 0 else if n > |all| then |all| else n;
    assert Clip(tail, m - BLOCK - Padded(|r.data|)) == Clip(tail, n - BLOCK - Padded(|r.data|));
    CutOfRecord(read, head, pad, tail, m, r, rest);
    assert Clip(all, n) == all[..m];
  }

  lemma {:induction false} ClipOfZeros(n: int)
    ensures var cut := Clip(Zeros(2 * BLOCK), n);
            |cut| >= BLOCK ==> cut[..BLOCK] == Zeros(BLOCK)
  {
    ZerosSlice(2 * BLOCK, BLOCK);
    var cut := Clip(Zeros(2 * BLOCK), n);
    if |cut| >= BLOCK {
      assert cut[..BLOCK] == Zeros(2 * BLOCK)[..BLOCK];
    }
  }

  lemma {:induction false} PrintedIsCut(encode: Record -> Bytes, read: Bytes -> Option<Header>, rs: Records, n: int)
    requires CodesFor(encode, read, rs) && read(Zeros(BLOCK)) == None
    ensures IsCutOf(read, Clip(PrintRecords(encode, rs), n), rs)
    decreases rs
  {
    match rs
    case Nil => ClipOfZeros(n);
    case Cons(r, rest) =>
      PrintedIsCut(encode, read, rest, n - BLOCK - Padded(|r.data|));
      ZerosAre(Padded(|r.data|) - |r.data|);
      ClipOfRecord(read, encode(r), Zeros(Padded(|r.data|) - |r.data|), PrintRecords(encode, rest), n, r, rest);
  }

  // ---------------------------------------------------------------- reading a cut archive

  function Declared(rs: Records): nat {
    match rs case Nil => 0 case Cons(r, rest) => |r.data| + Declared(rest)
  }

  /** What the reader carries after a list of records; refused as soon as one of them is. */
  function Feed(reader: Reader, rs: Records, c: Carry): Result<Carry, TarError> {
    match rs
    case Nil => Ok(c)
    case Cons(r, rest) =>
      var next := reader.consume(HeaderOf(r), r.data, c);
      if next.Err? then next else Feed(reader, rest, next.value)
  }

  /** Whether a cut after `n` bytes falls inside some record's body. */
  predicate CutsBody(rs: Records, n: int) {
    rs.Cons? && (BLOCK <= n < BLOCK + |rs.r.data| || CutsBody(rs.rest, n - BLOCK - Padded(|rs.r.data|)))
  }

  /** The files of the records that lie wholly before a cut at `n`, padding not counted. */
  function Kept(reader: Reader, rs: Records, n: int, c: Carry): Files {
    if rs.Nil? || n < BLOCK + |rs.r.data| then c.files
    else
      var next := reader.consume(HeaderOf(rs.r), rs.r.data, c);
      if next.Err? then c.files else Kept(reader, rs.rest, n - BLOCK - Padded(|rs.r.data|), next.value)
  }

  /** What reading a cut archive of these records gives. */
  function CutResult(reader: Reader, rs: Records, n: int, c: Carry): Result<Files, TarError> {
    if CutsBody(rs, n) then Err(Truncated) else Ok(Kept(reader, rs, n, c))
  }

  lemma {:induction false} NothingBeforeHeader(reader: Reader, rs: Records, n: int, c: Carry)
    requires n < BLOCK
    ensures CutResult(reader, rs, n, c) == Ok(c.files)
  {
    if rs.Cons? {
      NothingBeforeHeader(reader, rs.rest, n - BLOCK - Padded(|rs.r.data|), c);
    }
  }

  lemma {:induction false} CutResultOn(reader: Reader, bytes: Bytes, skip: nat, rs: Records, c: Carry)
    requires |bytes| >= BLOCK
    ensures CutResult(reader, rs, |bytes| - BLOCK - skip, c) == CutResult(reader, rs, |Beyond(bytes[BLOCK..], skip)|, c)
  {
    if |bytes| - BLOCK - skip < 0 {
      NothingBeforeHeader(reader, rs, |bytes| - BLOCK - skip, c);
      NothingBeforeHeader(reader, rs, 0, c);
    }
  }

  /** One turn of the reader over a record that lies before the cut. */
  lemma {:induction false} RecordReads(reader: Reader, bytes: Bytes, r: Record, rest: Records, total: nat, c: Carry,
                                       c': Carry)
    requires IsCutOf(reader.read, bytes, Cons(r, rest)) && |bytes| >= BLOCK + |r.data|
    requires total + |r.data| <= MAX_PLUGIN_BYTES && reader.consume(HeaderOf(r), r.data, c) == Ok(c')
    ensures Parse(reader, bytes, total, c)
            == Parse(reader, Beyond(bytes[BLOCK..], Padded(|r.data|)), total + |r.data|, c')
    ensures IsCutOf(reader.read, Beyond(bytes[BLOCK..], Padded(|r.data|)), rest)
  {
  }

  lemma {:induction false} RecordIsKept(reader: Reader, bytes: Bytes, r: Record, rest: Records, c: Carry, c': Carry)
    requires |bytes| >= BLOCK + |r.data| && reader.consume(HeaderOf(r), r.data, c) == Ok(c')
    ensures CutResult(reader, Cons(r, rest), |bytes|, c)
            == CutResult(reader, rest, |Beyond(bytes[BLOCK..], Padded(|r.data|))|, c')
  {
    CutResultOn(reader, bytes, Padded(|r.data|), rest, c');
  }

  /** And over one whose header is there and whose body is cut. */
  lemma {:induction false} CutBodyIsRefused(reader: Reader, bytes: Bytes, r: Record, rest: Records, total: nat,
                                            c: Carry)
    requires IsCutOf(reader.read, bytes, Cons(r, rest)) && BLOCK <= |bytes| < BLOCK + |r.data|
    requires total + |r.data| <= MAX_PLUGIN_BYTES
    ensures Parse(reader, bytes, total, c) == CutResult(reader, Cons(r, rest), |bytes|, c) == Err(Truncated)
  {
  }

  /** An archive cut anywhere: refused when the cut falls inside a body, and otherwise read up to it. */
  lemma {:induction false} CutReads(reader: Reader, bytes: Bytes, rs: Records, total: nat, c: Carry)
    requires IsCutOf(reader.read, bytes, rs) && total + Declared(rs) <= MAX_PLUGIN_BYTES && Feed(reader, rs, c).Ok?
    ensures Parse(reader, bytes, total, c) == CutResult(reader, rs, |bytes|, c)
    decreases rs
  {
    if |bytes| < BLOCK {
      NothingBeforeHeader(reader, rs, |bytes|, c);
    } else if rs.Cons? {
      var r := rs.r;
      if |bytes| < BLOCK + |r.data| {
        CutBodyIsRefused(reader, bytes, r, rs.rest, total, c);
      } else {
        var c' := reader.consume(HeaderOf(r), r.data, c).value;
        RecordReads(reader, bytes, r, rs.rest, total, c, c');
        RecordIsKept(reader, bytes, r, rs.rest, c, c');
        CutReads(reader, Beyond(bytes[BLOCK..], Padded(|r.data|)), rs.rest, total + |r.data|, c');
      }
    }
  }

  // ---------------------------------------------------------------- whole archives

  /** A plain file, a file whose name needs a long-name entry in front of it, or an entry that names no file. */
  datatype Member =
    | Plain(r: Record)
    | LongNamed(marker: Head, path: Bytes, r: Record)
    | Extra(r: Record)

  function Marker(m: Member): Record
    requires m.LongNamed?
  {
    Record(m.marker, m.path + [NUL])
  }

  /** A member's records in front of others. */
  function InFront(m: Member, rest: Records): Records {
    if m.LongNamed? then Cons(Marker(m), Cons(m.r, rest)) else Cons(m.r, rest)
  }

  function RecordsOf(ms: seq<Member>): Records {
    if ms == [] then Nil else InFront(ms[0], RecordsOf(ms[1..]))
  }

  predicate IsFile(kind: Byte) { kind == KIND_FILE || kind == NUL }

  predicate GoodMember(m: Member) {
    && GoodHead(m.r.head)
    && match m
       case Plain(r) => IsFile(r.head.kind) && IsSafePath(PathOf(HeaderOf(r)))
       case LongNamed(marker, path, r) =>
         GoodHead(marker) && marker.kind == KIND_LONGNAME && IsFile(r.head.kind) && IsSafePath(Decoded(path))
       case Extra(r) =>
         !IsFile(r.head.kind) && r.head.kind !in {KIND_HARDLINK, KIND_SYMLINK, KIND_LONGNAME}
  }

  /** A well-formed archive within the size ceiling. */
  predicate GoodArchive(ms: seq<Member>) {
    (forall m :: m in ms ==> GoodMember(m)) && Declared(RecordsOf(ms)) <= MAX_PLUGIN_BYTES
  }

  function Archive(ms: seq<Member>): Bytes {
    PrintRecords(Encode, RecordsOf(ms))
  }

  function FilePath(m: Member): Bytes
    requires !m.Extra?
  {
    if m.LongNamed? then Decoded(m.path) else PathOf(HeaderOf(m.r))
  }

  function Unpack1(m: Member, files: Files): Files {
    if m.Extra? then files else files[FilePath(m) := m.r.data]
  }

  /** The files an archive is meant to hold: a later entry replaces an earlier one of its name. */
  function Unpack(ms: seq<Member>, files: Files): Files {
    if ms == [] then files else Unpack(ms[1..], Unpack1(ms[0], files))
  }

  const FRESH: Carry := Carry(None, map[])

  lemma {:induction false} LongNameReads(path: Bytes)
    requires IsSafePath(Decoded(path))
    ensures StripNuls(Decoded(path + [NUL])) == Decoded(path)
  {
    var name := Decoded(path);
    assert Decoded(path + [NUL]) == name + [NUL];
    assert (name + [NUL])[..|name|] == name;
    assert name[|name| - 1] in name;
  }

  /** What the entries of one member do to the reader. */
  lemma {:induction false} MemberConsumed(m: Member, files: Files)
    requires GoodMember(m)
    ensures var c := Carry(if m.LongNamed? then Some(Decoded(m.path)) else None, files);
            Consume(HeaderOf(m.r), m.r.data, c) == Ok(Carry(None, Unpack1(m, files)))
    ensures m.LongNamed? ==>
      Consume(HeaderOf(Marker(m)), Marker(m).data, Carry(None, files)) == Ok(Carry(Some(Decoded(m.path)), files))
  {
    if m.LongNamed? {
      LongNameReads(m.path);
    }
  }

  lemma {:induction false} FeedMembers(ms: seq<Member>, files: Files)
    requires forall m :: m in ms ==> GoodMember(m)
    ensures Feed(PLUGIN_READER, RecordsOf(ms), Carry(None, files)) == Ok(Carry(None, Unpack(ms, files)))
  {
    if ms != [] {
      MemberConsumed(ms[0], files);
      FeedMembers(ms[1..], Unpack1(ms[0], files));
    }
  }

  lemma {:induction false} EncodeReads(r: Record)
    requires GoodHead(r.head) && |r.data| <= MAX_PLUGIN_BYTES
    ensures |Encode(r)| == BLOCK && ReadBlock(Encode(r)) == Some(HeaderOf(r))
  {
    HeaderReads(r.head, |r.data|);
  }

  lemma {:induction false} MembersCode(ms: seq<Member>)
    requires forall m :: m in ms ==> GoodMember(m)
    requires Declared(RecordsOf(ms)) <= MAX_PLUGIN_BYTES
    ensures CodesFor(Encode, ReadBlock, RecordsOf(ms))
  {
    if ms != [] {
      MembersCode(ms[1..]);
      assert GoodMember(ms[0]);
      EncodeReads(ms[0].r);
      if ms[0].LongNamed? {
        EncodeReads(Marker(ms[0]));
      }
    }
  }

  lemma {:induction false} WholeIsKept(reader: Reader, encode: Record -> Bytes, read: Bytes -> Option<Header>,
                                       rs: Records, n: int, c: Carry)
    requires CodesFor(encode, read, rs)
    requires n >= |PrintRecords(encode, rs)| && Feed(reader, rs, c).Ok?
    ensures CutResult(reader, rs, n, c) == Ok(Feed(reader, rs, c).value.files)
    decreases rs
  {
    if rs.Cons? {
      ZerosAre(Padded(|rs.r.data|) - |rs.r.data|);
      WholeIsKept(reader, encode, read, rs.rest, n - BLOCK - Padded(|rs.r.data|),
                  reader.consume(HeaderOf(rs.r), rs.r.data, c).value);
    }
  }

  /** How many bytes of an archive a member takes. */
  function Span(m: Member): nat {
    (if m.LongNamed? then BLOCK + Padded(|Marker(m).data|) else 0) + BLOCK + Padded(|m.r.data|)
  }

  /** The member lies before a cut at `n`, its last padding not counted. */
  predicate Before(m: Member, n: int) {
    && (m.LongNamed? ==> n >= BLOCK + |Marker(m).data|)
    && (if m.LongNamed? then n - BLOCK - Padded(|Marker(m).data|) else n) >= BLOCK + |m.r.data|
  }

  /** Reading past one member, for any reader that takes it in as said. */
  lemma {:induction false} KeptPast(reader: Reader, m: Member, rest: Records, n: int, files: Files, after: Files,
                                    name: Option<Bytes>)
    requires m.LongNamed? ==>
               reader.consume(HeaderOf(Marker(m)), Marker(m).data, Carry(None, files)) == Ok(Carry(name, files))
    requires !m.LongNamed? ==> name == None
    requires reader.consume(HeaderOf(m.r), m.r.data, Carry(name, files)) == Ok(Carry(None, after))
    ensures Kept(reader, InFront(m, rest), n, Carry(None, files)) ==
            if Before(m, n) then Kept(reader, rest, n - Span(m), Carry(None, after)) else files
  {
    if m.LongNamed? && n >= BLOCK + |Marker(m).data| {
      var n' := n - BLOCK - Padded(|Marker(m).data|);
      assert Kept(reader, InFront(m, rest), n, Carry(None, files))
          == Kept(reader, Cons(m.r, rest), n', Carry(name, files));
    }
  }

  /** How many members lie before a cut at `n`. */
  function CountBefore(ms: seq<Member>, n: int): (k: nat)
    ensures k <= |ms|
  {
    if ms == [] || !Before(ms[0], n) then 0 else 1 + CountBefore(ms[1..], n - Span(ms[0]))
  }

  lemma {:induction false} UnpackNext(m: Member, rest: seq<Member>, files: Files)
    ensures Unpack([m] + rest, files) == Unpack(rest, Unpack1(m, files))
  {
    assert ([m] + rest)[1..] == rest;
  }

  function NameAhead(m: Member): Option<Bytes> {
    if m.LongNamed? then Some(Decoded(m.path)) else None
  }

  /** The reader takes a member in: its long name if it has one, and then its file. */
  ghost predicate TakesIn(reader: Reader, m: Member) {
    && (forall files: Files ::
          reader.consume(HeaderOf(m.r), m.r.data, Carry(NameAhead(m), files)) == Ok(Carry(None, Unpack1(m, files))))
    && (m.LongNamed? ==> forall files: Files ::
          reader.consume(HeaderOf(Marker(m)), Marker(m).data, Carry(None, files)) == Ok(Carry(NameAhead(m), files)))
  }

  lemma {:induction false} GoodMemberIsTaken(m: Member)
    requires GoodMember(m)
    ensures TakesIn(PLUGIN_READER, m)
  {
    forall files: Files
      ensures Consume(HeaderOf(m.r), m.r.data, Carry(NameAhead(m), files)) == Ok(Carry(None, Unpack1(m, files)))
      ensures m.LongNamed? ==>
        Consume(HeaderOf(Marker(m)), Marker(m).data, Carry(None, files)) == Ok(Carry(NameAhead(m), files))
    {
      MemberConsumed(m, files);
    }
  }

  lemma {:induction false} KeptStep(reader: Reader, ms: seq<Member>, n: int, files: Files)
    requires ms != [] && TakesIn(reader, ms[0])
    ensures Kept(reader, RecordsOf(ms), n, Carry(None, files)) ==
            var after := Carry(None, Unpack1(ms[0], files));
            if Before(ms[0], n) then Kept(reader, RecordsOf(ms[1..]), n - Span(ms[0]), after) else files
  {
    KeptPast(reader, ms[0], RecordsOf(ms[1..]), n, files, Unpack1(ms[0], files), NameAhead(ms[0]));
  }

  lemma {:induction false} PrefixStep(ms: seq<Member>, k: nat, files: Files)
    requires k < |ms|
    ensures Unpack(ms[..k + 1], files) == Unpack(ms[1..][..k], Unpack1(ms[0], files))
  {
    UnpackNext(ms[0], ms[1..][..k], files);
    assert ms[..k + 1] == [ms[0]] + ms[1..][..k];
  }

  /** What is read up to a cut is what the members before it unpack to. */
  lemma {:induction false} KeptIsPrefix(reader: Reader, ms: seq<Member>, n: int, files: Files)
    requires forall m :: m in ms ==> TakesIn(reader, m)
    ensures Kept(reader, RecordsOf(ms), n, Carry(None, files)) == Unpack(ms[..CountBefore(ms, n)], files)
    decreases |ms|
  {
    if ms != [] {
      assert ms[0] in ms;
      KeptStep(reader, ms, n, files);
      if Before(ms[0], n) {
        KeptIsPrefix(reader, ms[1..], n - Span(ms[0]), Unpack1(ms[0], files));
        PrefixStep(ms, CountBefore(ms[1..], n - Span(ms[0])), files);
      }
    }
  }

  lemma {:induction false} ArchiveCut(ms: seq<Member>, n: int)
    requires GoodArchive(ms)
    ensures Parse(PLUGIN_READER, Clip(Archive(ms), n), 0, FRESH) ==
            CutResult(PLUGIN_READER, RecordsOf(ms), |Clip(Archive(ms), n)|, FRESH)
  {
    MembersCode(ms);
    FeedMembers(ms, map[]);
    ZerosAre(BLOCK);
    PrintedIsCut(Encode, ReadBlock, RecordsOf(ms), n);
    CutReads(PLUGIN_READER, Clip(Archive(ms), n), RecordsOf(ms), 0, FRESH);
  }

  /** Reading what the printer printed gives back the files, for every archive within the ceiling. */
  lemma {:induction false} ReaderUndoesPrinter(ms: seq<Member>)
    requires GoodArchive(ms)
    ensures Parse(PLUGIN_READER, Archive(ms), 0, FRESH) == Ok(Unpack(ms, map[]))
  {
    var n := |Archive(ms)|;
    ArchiveCut(ms, n);
    assert Clip(Archive(ms), n) == Archive(ms);
    FeedMembers(ms, map[]);
    MembersCode(ms);
    WholeIsKept(PLUGIN_READER, Encode, ReadBlock, RecordsOf(ms), n, FRESH);
  }

  /**
   A truncated archive is refused if and only if the cut falls inside an entry's body; any
   other cut goes unnoticed, and then the files read are exactly those of the members before it.
   */
  lemma {:induction false} TruncatedArchive(ms: seq<Member>, n: nat)
    requires GoodArchive(ms) && n <= |Archive(ms)|
    ensures var r := Parse(PLUGIN_READER, Archive(ms)[..n], 0, FRESH);
            && (r == Err(Truncated) <==> CutsBody(RecordsOf(ms), n))
            && (r.Err? ==> r == Err(Truncated))
            && (r.Ok? ==> r.value == Unpack(ms[..CountBefore(ms, n)], map[]))
  {
    ArchiveCut(ms, n);
    assert Clip(Archive(ms), n) == Archive(ms)[..n];
    forall m | m in ms
      ensures TakesIn(PLUGIN_READER, m)
    {
      GoodMemberIsTaken(m);
    }
    KeptIsPrefix(PLUGIN_READER, ms, n, map[]);
  }

  // ---------------------------------------------------------------- a cut that goes unnoticed

  function EmptyFile(letter: Byte): Member {
    Plain(Record(Head([letter], Zeros(24), NUL, Zeros(20), KIND_FILE, Zeros(188), [], Zeros(12)), []))
  }

  predicate IsLetter(b: Byte) { 97 <= b <= 122 }

  lemma {:induction false} EmptyHeadIsGood(letter: Byte)
    requires IsLetter(letter)
    ensures GoodHead(EmptyFile(letter).r.head)
  {
    ZerosAre(24);
    ZerosAre(20);
    ZerosAre(188);
    ZerosAre(12);
  }

  lemma {:induction false} LetterIsSafe(letter: Byte)
    requires IsLetter(letter)
    ensures IsSafePath([letter])
  {
    Paths.SplitPlain([letter], SLASH);
  }

  lemma {:induction false} EmptyFileIsGood(letter: Byte)
    requires IsLetter(letter)
    ensures GoodMember(EmptyFile(letter)) && FilePath(EmptyFile(letter)) == [letter]
  {
    EmptyHeadIsGood(letter);
    LetterIsSafe(letter);
  }

  predicate IsEmptyFile(m: Member) {
    m.Plain? && GoodMember(m) && m.r.data == []
  }

  lemma {:induction false} TwoRecords(a: Member, b: Member)
    requires IsEmptyFile(a) && IsEmptyFile(b)
    ensures RecordsOf([a, b]) == Cons(a.r, Cons(b.r, Nil)) && GoodArchive([a, b])
  {
    assert [a, b][1..] == [b] && [b][1..] == [];
    assert RecordsOf([b]) == Cons(b.r, Nil);
    assert Declared(Cons(b.r, Nil)) == 0;
  }

  lemma {:induction false} TwoUnpacked(a: Member, b: Member)
    requires IsEmptyFile(a) && IsEmptyFile(b)
    ensures Unpack([a], map[]) == map[FilePath(a) := []]
    ensures Unpack([a, b], map[]) == map[FilePath(a) := []][FilePath(b) := []]
  {
    assert [a] + [] == [a] && [b] + [] == [b] && [a] + [b] == [a, b];
    UnpackNext(a, [], map[]);
    UnpackNext(a, [b], map[]);
    UnpackNext(b, [], map[FilePath(a) := []]);
  }

  lemma {:induction false} CutAfterFirst(a: Member, b: Member)
    requires IsEmptyFile(a) && IsEmptyFile(b)
    ensures CountBefore([a, b], BLOCK) == 1 && !CutsBody(Cons(a.r, Cons(b.r, Nil)), BLOCK)
  {
    assert [a, b][1..] == [b] && Span(a) == BLOCK && !Before(b, 0);
    assert CountBefore([b], 0) == 0;
    assert !CutsBody(Cons(b.r, Nil), 0) && !CutsBody(Nil, -BLOCK);
  }

  lemma {:induction false} ArchiveHasHeader(a: Member, b: Member)
    requires IsEmptyFile(a) && IsEmptyFile(b)
    ensures |Archive([a, b])| >= BLOCK
  {
    TwoRecords(a, b);
    EncodeReads(a.r);
  }

  /** Two empty files, cut where the second one's header starts: the archive reads as one that holds the first. */
  lemma {:induction false} CutBetweenFiles(a: Member, b: Member)
    requires IsEmptyFile(a) && IsEmptyFile(b)
    ensures GoodArchive([a, b]) && |Archive([a, b])| >= BLOCK
    ensures Parse(PLUGIN_READER, Archive([a, b]), 0, FRESH) == Ok(map[FilePath(a) := []][FilePath(b) := []])
    ensures Parse(PLUGIN_READER, Archive([a, b])[..BLOCK], 0, FRESH) == Ok(map[FilePath(a) := []])
  {
    TwoRecords(a, b);
    TwoUnpacked(a, b);
    CutAfterFirst(a, b);
    ArchiveHasHeader(a, b);
    ReaderUndoesPrinter([a, b]);
    TruncatedArchive([a, b], BLOCK);
    assert [a, b][..1] == [a];
  }

  /** And there are such archives: here the files `a` and `b`, of which `b` is lost. */
  lemma {:induction false} CutGoesUnnoticed()
    ensures var ms := [EmptyFile(97), EmptyFile(98)];
            && GoodArchive(ms) && |Archive(ms)| >= BLOCK
            && Parse(PLUGIN_READER, Archive(ms)[..BLOCK], 0, FRESH) == Ok(map[[97] := []])
            && Parse(PLUGIN_READER, Archive(ms), 0, FRESH) == Ok(map[[97] := [], [98] := []])
  {
    EmptyFileIsGood(97);
    EmptyFileIsGood(98);
    CutBetweenFiles(EmptyFile(97), EmptyFile(98));
  }

  // ---------------------------------------------------------------- distinct names

  ghost predicate DistinctPaths(ms: seq<Member>) {
    forall i, j :: 0 <= i < j < |ms| && !ms[i].Extra? && !ms[j].Extra? ==> FilePath(ms[i]) != FilePath(ms[j])
  }

  lemma {:induction false} UnpackKeeps(ms: seq<Member>, files: Files, path: Bytes)
    requires forall m :: m in ms && !m.Extra? ==> FilePath(m) != path
    ensures path in Unpack(ms, files) <==> path in files
    ensures path in files ==> Unpack(ms, files)[path] == files[path]
  {
    if ms != [] {
      assert ms[0] in ms;
      UnpackKeeps(ms[1..], Unpack1(ms[0], files), path);
    }
  }

  /** With distinct names the result is exactly the list, as a map: nothing lost, nothing added. */
  lemma {:induction false} UnpackIsExact(ms: seq<Member>, files: Files, path: Bytes)
    requires DistinctPaths(ms)
    ensures forall i :: 0 <= i < |ms| && !ms[i].Extra? ==>
      FilePath(ms[i]) in Unpack(ms, files) && Unpack(ms, files)[FilePath(ms[i])] == ms[i].r.data
    ensures path in Unpack(ms, files) ==>
      path in files || exists m :: m in ms && !m.Extra? && FilePath(m) == path
  {
    if ms != [] {
      var m, rest := ms[0], ms[1..];
      UnpackIsExact(rest, Unpack1(m, files), path);
      assert m in ms;
      assert forall i :: 0 <= i < |rest| ==> rest[i] == ms[i + 1];
      forall i | 0 <= i < |ms| && !ms[i].Extra?
        ensures FilePath(ms[i]) in Unpack(ms, files) && Unpack(ms, files)[FilePath(ms[i])] == ms[i].r.data
      {
        if i == 0 {
          UnpackKeeps(rest, Unpack1(m, files), FilePath(m));
        } else {
          assert rest[i - 1] == ms[i];
        }
      }
    }
  }
}
