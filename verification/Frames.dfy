/**
 What the tar reader makes of any bytes at all, told frame by frame: where the headers lie is fixed
 by their size fields alone, and each of them is judged by its position among the others.
 */
module Frames {
  import Paths
  import opened Tar
  import opened Wrappers

  /** A header block, the size, kind and name it spells, and everything behind it. */
  datatype Frame = Frame(header: Bytes, size: int, kind: int, own: Bytes, rest: Bytes)

  /** The name a header spells out by itself. */
  function OwnName(header: Bytes): Bytes {
    var name, prefix := FieldText(header, 0, 100), FieldText(header, 345, 155);
    if prefix == [] then name else prefix + [47] + name
  }

  function FrameAt(bytes: Bytes): Frame
    requires |bytes| >= 512
  {
    var header := bytes[..512];
    Frame(header, FieldOctal(header, 124, 12), header[156], OwnName(header), bytes[512..])
  }

  function Body(f: Frame): Bytes {
    if 0 <= f.size <= |f.rest| then f.rest[..f.size] else []
  }

  /** The frames of an archive, up to a zero block, a header without a size, or the end. */
  function FramesOf(rest: Bytes): seq<Frame>
    decreases |rest|
  {
    if |rest| < 512 || forall i :: 0 <= i < 512 ==> rest[i] == 0 then []
    else
      var f := FrameAt(rest);
      [f] + if f.size < 0 then [] else FramesOf(Beyond(f.rest, Padded(f.size)))
  }

  // ---------------------------------------------------------------- judging a frame

  /** What the headers declare in all. */
  function Declared(fs: seq<Frame>): int {
    if fs == [] then 0 else Declared(fs[..|fs| - 1]) + fs[|fs| - 1].size
  }

  /** The long name that waits behind some frames: metadata entries let it wait, any other ends it. */
  function Ahead(fs: seq<Frame>): Option<Bytes> {
    if fs == [] then None
    else
      var last := fs[|fs| - 1];
      if last.kind == 76 then Some(StripNuls(Decoded(Body(last))))
      else if last.kind in {75, 103, 120} then Ahead(fs[..|fs| - 1])
      else None
  }

  function NameAt(fs: seq<Frame>, k: nat): Bytes
    requires k < |fs|
  {
    if Ahead(fs[..k]).Some? then Ahead(fs[..k]).value else fs[k].own
  }

  predicate HoldsFile(f: Frame) {
    f.kind == 48 || f.kind == 0
  }

  predicate IsLink(f: Frame) {
    f.kind == 49 || f.kind == 50
  }

  predicate SafeName(name: Bytes) {
    && name != [] && name[0] != 47 && 0 !in name && 92 !in name
    && [46, 46] !in Paths.Split(name, 47)
  }

  /** Its size is readable, within the ceiling with all before it, and its bytes are there. */
  predicate Present(fs: seq<Frame>, k: nat)
    requires k < |fs|
  {
    0 <= fs[k].size <= |fs[k].rest| && Declared(fs[..k + 1]) <= 33554432
  }

  predicate Sound(fs: seq<Frame>, k: nat)
    requires k < |fs|
  {
    Present(fs, k) && !IsLink(fs[k]) && (HoldsFile(fs[k]) ==> SafeName(NameAt(fs, k)))
  }

  ghost predicate AllSound(fs: seq<Frame>) {
    forall k: nat :: k < |fs| ==> Sound(fs, k)
  }

  /** What is wrong with a frame; the first that applies is what is reported. */
  predicate Wrong(fs: seq<Frame>, k: nat, e: TarError)
    requires k < |fs|
  {
    match e
    case UnreadableSize => fs[k].size < 0
    case TooLarge => fs[k].size >= 0 && Declared(fs[..k + 1]) > 33554432
    case Truncated => Declared(fs[..k + 1]) <= 33554432 && fs[k].size > |fs[k].rest|
    case LinkEntry => Present(fs, k) && IsLink(fs[k])
    case UnsafePath => Present(fs, k) && HoldsFile(fs[k]) && !SafeName(NameAt(fs, k))
  }

  /** The first frame that is not sound, and what is wrong with it. */
  ghost predicate FirstWrong(fs: seq<Frame>, k: nat, e: TarError) {
    k < |fs| && (forall j: nat :: j < k ==> Sound(fs, j)) && Wrong(fs, k, e)
  }

  // ---------------------------------------------------------------- what is held

  predicate Stores(fs: seq<Frame>, k: nat, path: Bytes)
    requires k < |fs|
  {
    HoldsFile(fs[k]) && NameAt(fs, k) == path
  }

  /** The last of the frames that stores a path. */
  ghost predicate LastStore(fs: seq<Frame>, k: nat, path: Bytes) {
    k < |fs| && Stores(fs, k, path) && forall j: nat :: k < j < |fs| ==> !Stores(fs, j, path)
  }

  ghost predicate IsStored(fs: seq<Frame>, path: Bytes) {
    exists k: nat :: LastStore(fs, k, path)
  }

  /** A path is held if and only if a frame stores it, with the bytes of the last that does. */
  ghost predicate Holds(files: Files, fs: seq<Frame>) {
    && (forall path :: path in files <==> IsStored(fs, path))
    && forall path, k: nat :: LastStore(fs, k, path) ==> path in files && files[path] == Body(fs[k])
  }

  // ---------------------------------------------------------------- one frame more

  lemma {:induction false} LastMore(fs: seq<Frame>, f: Frame, k: nat)
    requires k < |fs|
    ensures (fs + [f])[..k] == fs[..k] && (fs + [f])[..k + 1] == fs[..k + 1]
    ensures NameAt(fs + [f], k) == NameAt(fs, k) && (Sound(fs + [f], k) <==> Sound(fs, k))
  {
    assert (fs + [f])[..k] == fs[..k] && (fs + [f])[..k + 1] == fs[..k + 1];
  }

  lemma {:induction false} LastFrame(fs: seq<Frame>, f: Frame)
    ensures (fs + [f])[..|fs|] == fs && (fs + [f])[..|fs| + 1] == fs + [f]
    ensures Declared(fs + [f]) == Declared(fs) + f.size
  {
    assert (fs + [f])[..|fs|] == fs && (fs + [f])[..|fs| + 1] == fs + [f];
  }

  /** A frame that stores nothing leaves what is held. */
  lemma {:induction false} HoldsOther(files: Files, fs: seq<Frame>, f: Frame)
    requires Holds(files, fs) && !HoldsFile(f)
    ensures Holds(files, fs + [f])
  {
    forall path, k: nat
      ensures LastStore(fs + [f], k, path) <==> LastStore(fs, k, path)
    {
      StoreMore(fs, f, path);
    }
    assert forall path :: IsStored(fs + [f], path) <==> IsStored(fs, path);
  }

  lemma {:induction false} StoreMore(fs: seq<Frame>, f: Frame, path: Bytes)
    ensures forall k: nat :: k < |fs| ==> (Stores(fs + [f], k, path) <==> Stores(fs, k, path))
  {
    forall k: nat | k < |fs|
      ensures Stores(fs + [f], k, path) <==> Stores(fs, k, path)
    {
      LastMore(fs, f, k);
    }
  }

  lemma {:induction false} LastStoreMore(fs: seq<Frame>, f: Frame, path: Bytes, k: nat)
    requires HoldsFile(f)
    ensures LastStore(fs + [f], k, path)
            <==> if path == NameAt(fs + [f], |fs|) then k == |fs| else LastStore(fs, k, path)
  {
    StoreMore(fs, f, path);
    assert Stores(fs + [f], |fs|, path) <==> path == NameAt(fs + [f], |fs|);
  }

  lemma {:induction false} IsStoredMore(fs: seq<Frame>, f: Frame, path: Bytes)
    requires HoldsFile(f)
    ensures IsStored(fs + [f], path) <==> path == NameAt(fs + [f], |fs|) || IsStored(fs, path)
  {
    LastStoreMore(fs, f, path, |fs|);
    forall k: nat
      ensures LastStore(fs + [f], k, path)
              <==> if path == NameAt(fs + [f], |fs|) then k == |fs| else LastStore(fs, k, path)
    {
      LastStoreMore(fs, f, path, k);
    }
  }

  lemma {:induction false} HoldsStored(files: Files, fs: seq<Frame>, f: Frame, name: Bytes, more: seq<Frame>)
    requires Holds(files, fs) && HoldsFile(f) && more == fs + [f] && name == NameAt(more, |fs|)
    ensures Holds(files[name := Body(f)], more)
  {
    forall path
      ensures path in files[name := Body(f)] <==> IsStored(more, path)
    {
      IsStoredMore(fs, f, path);
    }
    forall path, k: nat | LastStore(more, k, path)
      ensures path in files[name := Body(f)] && files[name := Body(f)][path] == Body(more[k])
    {
      LastStoreMore(fs, f, path, k);
    }
  }

  /** The reader after some frames, all of them sound. */
  ghost predicate Carries(c: Carry, total: nat, fs: seq<Frame>) {
    AllSound(fs) && total == Declared(fs) && c.longName == Ahead(fs) && Holds(c.files, fs)
  }

  lemma {:induction false} SoundMore(fs: seq<Frame>, f: Frame)
    requires AllSound(fs)
    ensures AllSound(fs + [f]) <==> Sound(fs + [f], |fs|)
    ensures forall k: nat :: k < |fs| ==> Sound(fs + [f], k)
  {
    forall k: nat | k < |fs|
      ensures Sound(fs + [f], k)
    {
      LastMore(fs, f, k);
    }
  }

  /** The frame is what the reader decodes the header to. */
  predicate Matches(f: Frame, h: Header) {
    h.size == f.size && h.kind == f.kind && PathOf(h) == f.own
  }

  lemma {:induction false} DecodedFrame(bytes: Bytes)
    requires |bytes| >= 512
    ensures Matches(FrameAt(bytes), Decode(bytes[..512]))
  {
  }

  /** What a name and a body do to the reader. */
  lemma {:induction false} FileConsumed(h: Header, data: Bytes, c: Carry, name: Bytes)
    requires h.kind == 48 || h.kind == 0
    requires name == if c.longName.Some? then c.longName.value else PathOf(h)
    ensures Consume(h, data, c) == if SafeName(name) then Ok(Carry(None, c.files[name := data])) else Err(UnsafePath)
  {
  }

  /** Each kind of entry whose body is there. */
  lemma {:induction false} FrameConsumed(fs: seq<Frame>, f: Frame, h: Header, total: nat, c: Carry)
    requires Matches(f, h) && Carries(c, total, fs) && Present(fs + [f], |fs|)
    ensures var next := Consume(h, Body(f), c);
            if Sound(fs + [f], |fs|) then next.Ok? && Carries(next.value, total + f.size, fs + [f])
            else next.Err? && Wrong(fs + [f], |fs|, next.error)
  {
    LastFrame(fs, f);
    SoundMore(fs, f);
    if HoldsFile(f) {
      FileConsumed(h, Body(f), c, NameAt(fs + [f], |fs|));
      HoldsStored(c.files, fs, f, NameAt(fs + [f], |fs|), fs + [f]);
    } else {
      HoldsOther(c.files, fs, f);
    }
  }

  lemma {:induction false} FrameRead(fs: seq<Frame>, f: Frame, h: Header, total: nat, c: Carry)
    requires Matches(f, h) && Carries(c, total, fs)
    ensures var turn := Entry(PLUGIN_READER, h, f.rest, total, c);
            if Sound(fs + [f], |fs|) then
              turn.More? && turn.skip == Padded(f.size) && Carries(turn.carry, turn.total, fs + [f])
            else turn.Done? && turn.r.Err? && Wrong(fs + [f], |fs|, turn.r.error)
  {
    LastFrame(fs, f);
    if Present(fs + [f], |fs|) {
      FrameConsumed(fs, f, h, total, c);
    }
  }

  // ---------------------------------------------------------------- the whole archive

  ghost predicate Outcome(r: Result<Files, TarError>, fs: seq<Frame>) {
    match r
    case Ok(files) => AllSound(fs) && Holds(files, fs)
    case Err(e) => exists k: nat :: FirstWrong(fs, k, e)
  }

  lemma {:induction false} PrefixJudged(fs: seq<Frame>, more: seq<Frame>, k: nat, e: TarError)
    requires k < |fs|
    ensures (Sound(fs + more, k) <==> Sound(fs, k)) && (Wrong(fs + more, k, e) <==> Wrong(fs, k, e))
  {
    assert (fs + more)[..k] == fs[..k] && (fs + more)[..k + 1] == fs[..k + 1];
  }

  lemma {:induction false} FirstWrongStays(fs: seq<Frame>, k: nat, e: TarError, more: seq<Frame>)
    requires FirstWrong(fs, k, e)
    ensures FirstWrong(fs + more, k, e)
  {
    PrefixJudged(fs, more, k, e);
    forall j: nat | j < k
      ensures Sound(fs + more, j)
    {
      PrefixJudged(fs, more, j, e);
    }
  }

  lemma {:induction false} NoFrames(rest: Bytes, total: nat, c: Carry)
    requires FramesOf(rest) == []
    ensures Parse(PLUGIN_READER, rest, total, c) == Ok(c.files)
  {
    assert |rest| >= 512 ==> AllZero(rest[..512]);
  }

  lemma {:induction false} FramesNext(rest: Bytes, total: nat, c: Carry)
    requires FramesOf(rest) != []
    ensures |rest| >= 512
    ensures var f := FrameAt(rest);
            var turn := Entry(PLUGIN_READER, Decode(rest[..512]), f.rest, total, c);
            && FramesOf(rest) == [f] + (if f.size < 0 then [] else FramesOf(Beyond(f.rest, Padded(f.size))))
            && Parse(PLUGIN_READER, rest, total, c)
               == (match turn
                   case Done(r) => r
                   case More(skip, total', c') => Parse(PLUGIN_READER, Beyond(f.rest, skip), total', c'))
  {
    assert !AllZero(rest[..512]) by {
      var i :| 0 <= i < 512 && rest[i] != 0;
      assert rest[..512][i] != 0;
    }
  }

  /** A frame that is not sound ends the reading, whatever comes behind it. */
  lemma {:induction false} StopsAt(fs: seq<Frame>, f: Frame, more: seq<Frame>, e: TarError)
    requires AllSound(fs) && Wrong(fs + [f], |fs|, e)
    ensures Outcome(Err(e), fs + ([f] + more))
  {
    SoundMore(fs, f);
    assert FirstWrong(fs + [f], |fs|, e);
    FirstWrongStays(fs + [f], |fs|, e, more);
    assert fs + ([f] + more) == (fs + [f]) + more;
  }

  lemma {:induction false} SizeOfSound(fs: seq<Frame>, f: Frame)
    requires Sound(fs + [f], |fs|)
    ensures f.size >= 0
  {
  }

  /** Past one frame: the reading stops there, or goes on behind it. */
  lemma {:induction false} ReadStep(rest: Bytes, fs: seq<Frame>, total: nat, c: Carry)
    returns (stops: bool, f: Frame, after: Bytes, total': nat, c': Carry)
    requires Carries(c, total, fs) && FramesOf(rest) != []
    ensures stops ==> Outcome(Parse(PLUGIN_READER, rest, total, c), fs + FramesOf(rest))
    ensures !stops ==>
              && |after| < |rest| && Carries(c', total', fs + [f])
              && Parse(PLUGIN_READER, rest, total, c) == Parse(PLUGIN_READER, after, total', c')
              && fs + FramesOf(rest) == (fs + [f]) + FramesOf(after)
  {
    FramesNext(rest, total, c);
    DecodedFrame(rest);
    f := FrameAt(rest);
    var h := Decode(rest[..512]);
    FrameRead(fs, f, h, total, c);
    var turn := Entry(PLUGIN_READER, h, f.rest, total, c);
    stops, after, total', c' := turn.Done?, [], total, c;
    if stops {
      StopsAt(fs, f, if f.size < 0 then [] else FramesOf(Beyond(f.rest, Padded(f.size))), turn.r.error);
    } else {
      SizeOfSound(fs, f);
      after, total', c' := Beyond(f.rest, turn.skip), turn.total, turn.carry;
      Regroup(fs, f, FramesOf(after));
    }
  }

  lemma {:induction false} Regroup(fs: seq<Frame>, f: Frame, more: seq<Frame>)
    ensures fs + ([f] + more) == (fs + [f]) + more
  {
  }

  lemma {:induction false} ReadOn(rest: Bytes, fs: seq<Frame>, total: nat, c: Carry)
    requires Carries(c, total, fs)
    ensures Outcome(Parse(PLUGIN_READER, rest, total, c), fs + FramesOf(rest))
    decreases |rest|
  {
    if FramesOf(rest) == [] {
      assert fs + FramesOf(rest) == fs;
      NoFrames(rest, total, c);
    } else {
      var stops, f, after, total', c' := ReadStep(rest, fs, total, c);
      if !stops {
        ReadOn(after, fs + [f], total', c');
      }
    }
  }

  lemma {:induction false} WrongIsUnsound(fs: seq<Frame>, k: nat, e: TarError)
    requires k < |fs| && Wrong(fs, k, e)
    ensures !Sound(fs, k)
  {
  }

  lemma {:induction false} OutcomeMeans(r: Result<Files, TarError>, fs: seq<Frame>)
    requires Outcome(r, fs)
    ensures r.Ok? <==> AllSound(fs)
    ensures r.Ok? ==> Holds(r.value, fs)
    ensures r.Err? ==> exists k: nat :: FirstWrong(fs, k, r.error)
  {
    if r.Err? {
      var k: nat :| FirstWrong(fs, k, r.error);
      WrongIsUnsound(fs, k, r.error);
    }
  }

  /**
   Any bytes at all, as an archive: accepted if and only if every frame is sound, and then what is held is
   exactly what the frames store, the last of a name staying; refused for the first frame that is not, and
   for what is wrong with it.
   */
  lemma {:induction false} ReadByFrames(bytes: Bytes)
    ensures var r := Parse(PLUGIN_READER, bytes, 0, Carry(None, map[]));
            && (r.Ok? <==> AllSound(FramesOf(bytes)))
            && (r.Ok? ==> Holds(r.value, FramesOf(bytes)))
            && (r.Err? ==> exists k: nat :: FirstWrong(FramesOf(bytes), k, r.error))
  {
    NothingCarried();
    ReadOn(bytes, [], 0, Carry(None, map[]));
    assert [] + FramesOf(bytes) == FramesOf(bytes);
    OutcomeMeans(Parse(PLUGIN_READER, bytes, 0, Carry(None, map[])), FramesOf(bytes));
  }

  lemma {:induction false} NothingCarried()
    ensures Carries(Carry(None, map[]), 0, [])
  {
  }

  lemma {:induction false} LinkIsWrong(r: Result<Files, TarError>, fs: seq<Frame>, k: nat)
    requires Outcome(r, fs) && k < |fs| && IsLink(fs[k])
    ensures r.Err?
    ensures (forall j: nat :: j < k ==> Sound(fs, j)) && Present(fs, k) ==> r == Err(LinkEntry)
  {
    assert !Sound(fs, k);
    OutcomeMeans(r, fs);
    if (forall j: nat :: j < k ==> Sound(fs, j)) && Present(fs, k) {
      var j: nat :| FirstWrong(fs, j, r.error);
      WrongIsUnsound(fs, j, r.error);
      assert j == k;
    }
  }

  /** Every frame's kind is the type byte of its header block. */
  lemma {:induction false} KindIsTypeByte(bytes: Bytes, k: nat)
    requires k < |FramesOf(bytes)|
    ensures |FramesOf(bytes)[k].header| == 512 && FramesOf(bytes)[k].kind == FramesOf(bytes)[k].header[156]
    decreases |bytes|
  {
    var f := FrameAt(bytes);
    if k > 0 {
      KindIsTypeByte(Beyond(f.rest, Padded(f.size)), k - 1);
    }
  }

  /** A header whose type byte is `1` or `2` ends the install, whatever else the archive holds. */
  lemma {:induction false} LinksAreRefused(bytes: Bytes, k: nat)
    requires k < |FramesOf(bytes)| && |FramesOf(bytes)[k].header| == 512
    requires FramesOf(bytes)[k].header[156] == 49 || FramesOf(bytes)[k].header[156] == 50
    ensures Parse(PLUGIN_READER, bytes, 0, Carry(None, map[])).Err?
    ensures (forall j: nat :: j < k ==> Sound(FramesOf(bytes), j)) && Present(FramesOf(bytes), k) ==>
              Parse(PLUGIN_READER, bytes, 0, Carry(None, map[])) == Err(LinkEntry)
  {
    NothingCarried();
    ReadOn(bytes, [], 0, Carry(None, map[]));
    assert [] + FramesOf(bytes) == FramesOf(bytes);
    KindIsTypeByte(bytes, k);
    LinkIsWrong(Parse(PLUGIN_READER, bytes, 0, Carry(None, map[])), FramesOf(bytes), k);
  }
}
