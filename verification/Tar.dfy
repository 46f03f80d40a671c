/**
 The tar reader behind plugin installs.

 The layout is the "ustar Interchange Format" of the `pax` utility in POSIX.1-2017, with GNU long
 file names. Names are byte strings: decoding well-formed UTF-8 drops a leading byte order mark and
 is the identity otherwise.
 */
module Tar {
  import opened Collections
  import Paths
  import opened Wrappers

  type Byte = b: int | 0 <= b < 256
  type Bytes = seq<Byte>
  type Files = map<Bytes, Bytes>

  const BLOCK := 512
  const MAX_PLUGIN_BYTES := 33554432

  const NUL: Byte := 0
  const SPACE: Byte := 32
  const SLASH: Byte := 47
  const BACKSLASH: Byte := 92
  const DOT: Byte := 46
  const PLUS: Byte := 43
  const MINUS: Byte := 45

  datatype TarError = UnreadableSize | TooLarge | Truncated | LinkEntry | UnsafePath

  // ---------------------------------------------------------------- header fields

  function UpToNul(text: Bytes): Bytes {
    if text == [] || text[0] == NUL then [] else [text[0]] + UpToNul(text[1..])
  }

  /** `bytes.subarray(from, to)`, which clamps to the bytes there are. */
  function Subarray(bytes: Bytes, from: nat, to: nat): Bytes
    requires from <= to
  {
    if from >= |bytes| then [] else bytes[from..if to <= |bytes| then to else |bytes|]
  }

  /** What decoding does to well-formed text. */
  function Decoded(text: Bytes): Bytes {
    if |text| >= 3 && text[0] == 0xEF && text[1] == 0xBB && text[2] == 0xBF then text[3..] else text
  }

  function FieldText(header: Bytes, offset: nat, length: nat): Bytes {
    Decoded(UpToNul(Subarray(header, offset, offset + length)))
  }

  predicate IsBlank(b: Byte) { 9 <= b <= 13 || b == SPACE }

  function TrimStart(text: Bytes): Bytes {
    if text != [] && IsBlank(text[0]) then TrimStart(text[1..]) else text
  }

  function TrimEnd(text: Bytes): Bytes {
    if text != [] && IsBlank(text[|text| - 1]) then TrimEnd(text[..|text| - 1]) else text
  }

  predicate IsOctal(b: Byte) { 48 <= b <= 55 }

  function DigitPrefix(text: Bytes): Bytes {
    if text == [] || !IsOctal(text[0]) then [] else [text[0]] + DigitPrefix(text[1..])
  }

  function OctalValue(digits: Bytes): int {
    if digits == [] then 0 else 8 * OctalValue(digits[..|digits| - 1]) + (digits[|digits| - 1] as int - 48)
  }

  /** JavaScript's `parseInt(text, 8)` on trimmed text; `None` is NaN. */
  function ParseIntOctal(text: Bytes): Option<int> {
    var signed := text != [] && (text[0] == PLUS || text[0] == MINUS);
    var digits := DigitPrefix(if signed then text[1..] else text);
    if digits == [] then None
    else Some(if text[0] == MINUS then -OctalValue(digits) else OctalValue(digits))
  }

  const MAX_SAFE_INTEGER := 9007199254740991

  /** The number an octal text stands for; -1 when it is not one. */
  function OctalNumber(text: Bytes): int {
    var trimmed := TrimEnd(TrimStart(text));
    if trimmed == [] then 0
    else
      var value := ParseIntOctal(trimmed);
      if value.Some? && 0 <= value.value <= MAX_SAFE_INTEGER then value.value else -1
  }

  function FieldOctal(header: Bytes, offset: nat, length: nat): int {
    OctalNumber(FieldText(header, offset, length))
  }

  // ---------------------------------------------------------------- what a field says

  /** A leading byte order mark goes, and nothing else does. */
  lemma {:induction false} DecodedMeans(text: Bytes)
    ensures Decoded([0xEF, 0xBB, 0xBF] + text) == text
    ensures !([0xEF, 0xBB, 0xBF] <= text) ==> Decoded(text) == text
  {
  }

  /** A field is read up to its first zero byte. */
  lemma {:induction false} UpToNulMeans(text: Bytes)
    ensures UpToNul(text) <= text && NUL !in UpToNul(text)
    ensures |UpToNul(text)| < |text| ==> text[|UpToNul(text)|] == NUL
  {
    if text != [] && text[0] != NUL {
      UpToNulMeans(text[1..]);
    }
  }

  /** Trailing zero bytes go, and nothing else does. */
  lemma {:induction false} StripNulsMeans(text: Bytes)
    ensures StripNuls(text) <= text && AllZero(text[|StripNuls(text)|..])
    ensures StripNuls(text) != [] ==> StripNuls(text)[|StripNuls(text)| - 1] != NUL
  {
    if text != [] && text[|text| - 1] == NUL {
      var front := text[..|text| - 1];
      StripNulsMeans(front);
      assert text[|StripNuls(front)|..] == front[|StripNuls(front)|..] + [NUL];
    } else {
      assert text[|text|..] == [];
    }
  }

  predicate AllBlank(text: Bytes) {
    forall i :: 0 <= i < |text| ==> text[i] in {9, 10, 11, 12, 13, 32}
  }

  predicate AllDigits(text: Bytes) {
    forall i :: 0 <= i < |text| ==> '0' as int <= text[i] <= '7' as int
  }

  /** No octal digit continues a text. */
  predicate NoDigitFirst(text: Bytes) {
    text == [] || !('0' as int <= text[0] <= '7' as int)
  }

  lemma {:induction false} TrimStartOver(lead: Bytes, core: Bytes)
    requires AllBlank(lead) && (core == [] || core[0] !in {9, 10, 11, 12, 13, 32})
    ensures TrimStart(lead + core) == core
  {
    if lead == [] {
      assert lead + core == core;
    } else {
      TrimStartOver(lead[1..], core);
      assert (lead + core)[1..] == lead[1..] + core;
    }
  }

  /** What is in front of a text that ends in no blank is not trimmed. */
  lemma {:induction false} TrimEndOver(core: Bytes, rest: Bytes) returns (left: Bytes)
    requires core != [] && core[|core| - 1] !in {9, 10, 11, 12, 13, 32}
    ensures TrimEnd(core + rest) == core + left && left <= rest
  {
    if rest == [] {
      left := [];
      assert core + rest == core && core + left == core;
    } else {
      var all := core + rest;
      if IsBlank(all[|all| - 1]) {
        left := TrimEndOver(core, rest[..|rest| - 1]);
        assert all[..|all| - 1] == core + rest[..|rest| - 1];
      } else {
        left := rest;
      }
    }
  }

  lemma {:induction false} DigitsOver(digits: Bytes, rest: Bytes)
    requires AllDigits(digits) && NoDigitFirst(rest)
    ensures DigitPrefix(digits + rest) == digits
  {
    if digits == [] {
      assert digits + rest == rest;
    } else {
      DigitsOver(digits[1..], rest);
      assert (digits + rest)[1..] == digits[1..] + rest;
      assert [digits[0]] + digits[1..] == digits;
    }
  }

  predicate IsSign(sign: Bytes) {
    sign == [] || sign == ['+' as int] || sign == ['-' as int]
  }

  lemma {:induction false} ParsedOver(sign: Bytes, digits: Bytes, rest: Bytes)
    requires IsSign(sign) && AllDigits(digits) && NoDigitFirst(rest)
    requires digits == [] ==> sign != [] || rest == [] || (rest[0] != '+' as int && rest[0] != '-' as int)
    ensures ParseIntOctal(sign + digits + rest)
            == if digits == [] then None
               else Some(if sign == ['-' as int] then -OctalValue(digits) else OctalValue(digits))
  {
    var text := sign + digits + rest;
    DigitsOver(digits, rest);
    if sign != [] {
      assert text[0] == sign[0] && text[1..] == digits + rest;
    } else {
      assert text == digits + rest;
    }
  }

  /**
   A size field, as `parseInt` reads it: blanks, perhaps a sign, octal digits, and whatever follows them. It
   is zero when it is blank, the number when there is one that is not negative and is a safe integer, and
   otherwise unreadable.
   */
  lemma {:induction false} OctalNumberMeans(lead: Bytes, sign: Bytes, digits: Bytes, rest: Bytes)
    requires AllBlank(lead) && IsSign(sign) && AllDigits(digits) && digits != [] && NoDigitFirst(rest)
    ensures OctalNumber(lead) == 0
    ensures OctalNumber(lead + (sign + digits + rest))
            == if sign == ['-' as int] && OctalValue(digits) != 0 then -1
               else if OctalValue(digits) <= 9007199254740991 then OctalValue(digits)
               else -1
  {
    assert lead + [] == lead;
    TrimStartOver(lead, []);
    var core := sign + digits;
    assert core[|core| - 1] == digits[|digits| - 1];
    TrimStartOver(lead, core + rest);
    var left := TrimEndOver(core, rest);
    ParsedOver(sign, digits, left);
    ValueIsNatural(digits);
  }

  lemma {:induction false} ValueIsNatural(digits: Bytes)
    requires AllDigits(digits)
    ensures OctalValue(digits) >= 0
  {
    if digits != [] {
      ValueIsNatural(digits[..|digits| - 1]);
    }
  }

  /** Without a digit where one is due there is no number. */
  lemma {:induction false} NoNumber(lead: Bytes, sign: Bytes, rest: Bytes)
    requires AllBlank(lead) && IsSign(sign) && NoDigitFirst(rest) && sign + rest != []
    requires sign == [] ==> rest[0] !in {9, 10, 11, 12, 13, 32, '+' as int, '-' as int}
    ensures OctalNumber(lead + (sign + rest)) == -1
  {
    var core := if sign == [] then rest[..1] else sign;
    var more := if sign == [] then rest[1..] else rest;
    assert core + more == sign + rest;
    TrimStartOver(lead, core + more);
    var left := TrimEndOver(core, more);
    if sign == [] {
      assert core + left == [] + [] + (core + left);
      ParsedOver([], [], core + left);
    } else {
      assert core + left == sign + [] + left;
      ParsedOver(sign, [], left);
    }
  }

  // ---------------------------------------------------------------- paths

  predicate IsSafePath(path: Bytes) {
    && path != [] && path[0] != SLASH && NUL !in path && BACKSLASH !in path
    && [DOT, DOT] !in Paths.Split(path, SLASH)
  }

  // ---------------------------------------------------------------- the reader

  datatype Header = Header(size: int, kind: Byte, name: Bytes, prefix: Bytes)

  function Decode(block: Bytes): Header {
    Header(FieldOctal(block, 124, 12), if |block| > 156 then block[156] else NUL,
           FieldText(block, 0, 100), FieldText(block, 345, 155))
  }

  predicate AllZero(block: Bytes) {
    forall i :: 0 <= i < |block| ==> block[i] == NUL
  }

  /** A header block as the loop sees it: `None` is the zero block that ends an archive. */
  function ReadBlock(block: Bytes): Option<Header> {
    if AllZero(block) then None else Some(Decode(block))
  }

  /** A body's length rounded up to whole blocks. */
  function Padded(size: nat): (r: nat)
    ensures size <= r < size + 512 && r % 512 == 0
  {
    (size + 511) / 512 * 512
  }

  /** What lies beyond `n` bytes; nothing when a writer left the last padding out. */
  function Beyond(bytes: Bytes, n: nat): Bytes {
    if n <= |bytes| then bytes[n..] else []
  }

  function StripNuls(text: Bytes): Bytes {
    if text != [] && text[|text| - 1] == NUL then StripNuls(text[..|text| - 1]) else text
  }

  function PathOf(h: Header): Bytes {
    if h.prefix != [] then h.prefix + [SLASH] + h.name else h.name
  }

  const KIND_FILE: Byte := 48
  const KIND_HARDLINK: Byte := 49
  const KIND_SYMLINK: Byte := 50
  const KIND_LONGLINK: Byte := 75
  const KIND_LONGNAME: Byte := 76
  const KIND_PAX_GLOBAL: Byte := 103
  const KIND_PAX: Byte := 120

  /** What the reader carries from entry to entry: a pending long name, and the files so far. */
  datatype Carry = Carry(longName: Option<Bytes>, files: Files)

  /** The effect of one entry whose body is present. */
  function Consume(h: Header, data: Bytes, c: Carry): Result<Carry, TarError> {
    if h.kind == KIND_HARDLINK || h.kind == KIND_SYMLINK then Err(LinkEntry)
    else if h.kind == KIND_LONGNAME then Ok(c.(longName := Some(StripNuls(Decoded(data)))))
    else if h.kind == KIND_LONGLINK || h.kind == KIND_PAX || h.kind == KIND_PAX_GLOBAL then Ok(c)
    else if h.kind != KIND_FILE && h.kind != NUL then Ok(c.(longName := None))
    else
      var path := if c.longName.Some? then c.longName.value else PathOf(h);
      if !IsSafePath(path) then Err(UnsafePath) else Ok(Carry(None, c.files[path := data]))
  }

  /** Where one entry leaves the reader: finished, or `skip` bytes past the header. */
  datatype Turn = Done(r: Result<Files, TarError>) | More(skip: nat, total: nat, carry: Carry)

  /** How header blocks and entries are understood; the framing around them does not care. */
  datatype Reader = Reader(read: Bytes -> Option<Header>, consume: (Header, Bytes, Carry) -> Result<Carry, TarError>)

  const PLUGIN_READER: Reader := Reader(ReadBlock, Consume)

  /** An entry with header `h` and `body` behind it, `total` bytes having been declared before. */
  function Entry(reader: Reader, h: Header, body: Bytes, total: nat, c: Carry): Turn {
    if h.size < 0 then Done(Err(UnreadableSize))
    else if total + h.size > MAX_PLUGIN_BYTES then Done(Err(TooLarge))
    else if h.size > |body| then Done(Err(Truncated))
    else
      var next := reader.consume(h, body[..h.size], c);
      if next.Err? then Done(Err(next.error)) else More(Padded(h.size), total + h.size, next.value)
  }

  /** The archive read from here on. */
  function Parse(reader: Reader, rest: Bytes, total: nat, c: Carry): Result<Files, TarError>
    decreases |rest|
  {
    if |rest| < BLOCK then Ok(c.files)
    else
      match reader.read(rest[..BLOCK])
      case None => Ok(c.files)
      case Some(h) =>
        match Entry(reader, h, rest[BLOCK..], total, c)
        case Done(r) => r
        case More(skip, total', c') => Parse(reader, Beyond(rest[BLOCK..], skip), total', c')
  }

  /** What the slices at an offset are, in terms of the bytes from that offset on. */
  lemma {:induction false} SlicesAt(bytes: Bytes, offset: nat, size: nat)
    requires offset + BLOCK <= |bytes|
    ensures var rest := Beyond(bytes, offset);
            && |rest| == |bytes| - offset
            && bytes[offset..offset + BLOCK] == rest[..BLOCK]
            && (offset + BLOCK + size <= |bytes| ==>
                  bytes[offset + BLOCK..offset + BLOCK + size] == rest[BLOCK..][..size])
            && Beyond(bytes, offset + BLOCK + Padded(size)) == Beyond(rest[BLOCK..], Padded(size))
  {
  }

  /** The loop body behind a header: the turn it takes, and the offset it takes it to. */
  method ReadAt(reader: Reader, h: Header, bytes: Bytes, offset: nat, total: nat, c: Carry)
    returns (turn: Turn, offset': nat)
    requires offset + BLOCK <= |bytes|
    ensures turn == Entry(reader, h, Beyond(bytes, offset)[BLOCK..], total, c)
    ensures turn.More? ==> offset' == offset + BLOCK + turn.skip
    ensures turn.More? ==> Beyond(bytes, offset') == Beyond(Beyond(bytes, offset)[BLOCK..], turn.skip)
  {
    SlicesAt(bytes, offset, if h.size < 0 then 0 else h.size);
    offset' := offset + BLOCK;
    if h.size < 0 {
      turn := Done(Err(UnreadableSize));
    } else if total + h.size > MAX_PLUGIN_BYTES {
      turn := Done(Err(TooLarge));
    } else if offset' + h.size > |bytes| {
      turn := Done(Err(Truncated));
    } else {
      var next := reader.consume(h, bytes[offset'..offset' + h.size], c);
      offset' := offset' + Padded(h.size);
      turn := if next.Err? then Done(Err(next.error)) else More(Padded(h.size), total + h.size, next.value);
    }
  }

  method ReadTar(bytes: Bytes) returns (r: Result<Files, TarError>)
    ensures r == Parse(PLUGIN_READER, bytes, 0, Carry(None, map[]))
  {
    var carry := Carry(None, map[]);
    var total: nat := 0;
    var offset: nat := 0;
    ghost var rest := bytes;
    while offset + BLOCK <= |bytes|
      invariant rest == Beyond(bytes, offset)
      invariant Parse(PLUGIN_READER, rest, total, carry) == Parse(PLUGIN_READER, bytes, 0, Carry(None, map[]))
      decreases |bytes| + BLOCK - offset
    {
      SlicesAt(bytes, offset, 0);
      var header := bytes[offset..offset + BLOCK];
      if AllZero(header) {
        break;
      }
      var turn, offset' := ReadAt(PLUGIN_READER, Decode(header), bytes, offset, total, carry);
      if turn.Done? {
        return turn.r;
      }
      offset, total, carry := offset', turn.total, turn.carry;
      rest := Beyond(rest[BLOCK..], turn.skip);
    }
    r := Ok(carry.files);
  }

  // ---------------------------------------------------------------- archives nobody vouches for

  /** How many bytes a set of files holds in all. */
  ghost function Weight(files: Files): nat
    decreases |files|
  {
    if files == map[] then 0 else |files[AnyKey(files)]| + Weight(files - {AnyKey(files)})
  }

  lemma {:induction false} WeightSplit(files: Files, p: Bytes)
    requires p in files
    ensures Weight(files) == |files[p]| + Weight(files - {p})
    decreases |files|
  {
    var first := AnyKey(files);
    if first != p {
      WeightSplit(files - {first}, p);
      WeightSplit(files - {p}, first);
      assert (files - {first}) - {p} == (files - {p}) - {first};
    }
  }

  lemma {:induction false} WeightAdd(files: Files, p: Bytes, data: Bytes)
    ensures Weight(files[p := data]) <= Weight(files) + |data|
  {
    WeightSplit(files[p := data], p);
    assert files[p := data] - {p} == files - {p};
    if p in files {
      WeightSplit(files, p);
    } else {
      assert files - {p} == files;
    }
  }

  ghost predicate AllSafe(files: Files) {
    forall p :: p in files ==> IsSafePath(p)
  }

  lemma {:induction false} ConsumeBounded(h: Header, data: Bytes, c: Carry)
    requires AllSafe(c.files) && Consume(h, data, c).Ok?
    ensures AllSafe(Consume(h, data, c).value.files)
    ensures Weight(Consume(h, data, c).value.files) <= Weight(c.files) + |data|
  {
    var path := if c.longName.Some? then c.longName.value else PathOf(h);
    WeightAdd(c.files, path, data);
  }

  /** Safe paths only, and no more bytes than were declared. */
  ghost predicate Bounded(files: Files, total: int) {
    AllSafe(files) && Weight(files) <= total
  }

  ghost predicate KeepsBounds(reader: Reader) {
    forall h: Header, data: Bytes, c: Carry, total: int ::
      Bounded(c.files, total) && reader.consume(h, data, c).Ok? ==>
        Bounded(reader.consume(h, data, c).value.files, total + |data|)
  }

  lemma {:induction false} ParseBounded(reader: Reader, rest: Bytes, total: nat, c: Carry)
    requires KeepsBounds(reader) && Bounded(c.files, total) && total <= MAX_PLUGIN_BYTES
    requires Parse(reader, rest, total, c).Ok?
    ensures Bounded(Parse(reader, rest, total, c).value, MAX_PLUGIN_BYTES)
    decreases |rest|
  {
    if |rest| >= BLOCK && reader.read(rest[..BLOCK]).Some? {
      var turn := Entry(reader, reader.read(rest[..BLOCK]).value, rest[BLOCK..], total, c);
      assert turn.More? ==> turn.total <= MAX_PLUGIN_BYTES && Bounded(turn.carry.files, turn.total);
      if turn.More? {
        ParseBounded(reader, Beyond(rest[BLOCK..], turn.skip), turn.total, turn.carry);
      }
    }
  }

  /**
   Whatever bytes are offered as an archive: if they are accepted at all, the files together
   hold no more than the ceiling, and no path leads out of the directory it is joined onto.
   */
  lemma {:induction false} AcceptedArchiveIsContained(bytes: Bytes, dir: seq<Bytes>, path: Bytes)
    requires Parse(PLUGIN_READER, bytes, 0, Carry(None, map[])).Ok?
    requires path in Parse(PLUGIN_READER, bytes, 0, Carry(None, map[])).value
    ensures dir <= Paths.Walk(dir, Paths.Split(path, SLASH), DOT)
    ensures Weight(Parse(PLUGIN_READER, bytes, 0, Carry(None, map[])).value) <= MAX_PLUGIN_BYTES
  {
    forall h: Header, data: Bytes, c: Carry, total: int | Bounded(c.files, total) && Consume(h, data, c).Ok?
      ensures Bounded(Consume(h, data, c).value.files, total + |data|)
    {
      ConsumeBounded(h, data, c);
    }
    ParseBounded(PLUGIN_READER, bytes, 0, Carry(None, map[]));
    Paths.WalkDescends(dir, Paths.Split(path, SLASH), DOT);
  }

  /** Taking a wrapping directory off an accepted name leaves one that is no less contained. */
  lemma {:induction false} StrippedNameIsContained(path: Bytes, k: nat, dir: seq<Bytes>)
    requires IsSafePath(path) && k < |path| && path[k] == SLASH
    ensures [DOT, DOT] !in Paths.Split(path[k + 1..], SLASH)
    ensures dir <= Paths.Walk(dir, Paths.Split(path[k + 1..], SLASH), DOT)
  {
    if [DOT, DOT] in Paths.Split(path[k + 1..], SLASH) {
      Paths.SplitSuffix(path, SLASH, k, [DOT, DOT]);
      assert false;
    }
    Paths.WalkDescends(dir, Paths.Split(path[k + 1..], SLASH), DOT);
  }
}
