/** The encoder's parameters, as the user controls set them, and the command words they are packed
    into when a capture starts. */
module Encoder {
  import opened Bytes

  const MIN_BITRATE: nat := 2000000
  const MAX_BITRATE: nat := 20000000
  const MIN_GOP: nat := 1
  const MAX_GOP: nat := 60

  /** The parameters. An entropy mode of 1 is CABAC, a mode of 1 is VBR; mute and brightness are kept
      but reach no command. */
  datatype Params = Params(mute: nat, brightness: nat, bitrate: nat, peak: nat, gop: nat, profile: nat, level: nat,
                           entropy: nat, mode: nat, outWidth: nat, outHeight: nat)

  const ZEROED := Params(0, 0, 0, 0, 0, 0, 0, 0, 0, 0, 0)

  datatype ControlId =
    | AudioMute | Brightness | Bitrate | BitratePeak | BitrateMode | GopSize
    | H264Level | EntropyMode | H264Profile | StreamType | Unknown

  /** A control and its new value; the menu values are the V4L2 indices. */
  datatype Control = Control(id: ControlId, val: nat)

  const MODE_VBR: nat := 0
  const MODE_CBR: nat := 1
  const ENTROPY_CAVLC: nat := 0
  const ENTROPY_CABAC: nat := 1

  /** The V4L2 profile menu has CONSTRAINED_BASELINE at 1 and EXTENDED at 3. */
  const PROFILE_BASELINE: nat := 0
  const PROFILE_MAIN: nat := 2
  const PROFILE_HIGH: nat := 4
  const STREAM_MPEG2_TS: nat := 1

  /** The values the control framework lets through. */
  predicate InRange(c: Control) {
    match c.id
    case Bitrate => MIN_BITRATE <= c.val <= MAX_BITRATE
    case BitratePeak => MIN_BITRATE <= c.val <= MAX_BITRATE
    case GopSize => MIN_GOP <= c.val <= MAX_GOP
    case _ => true
  }

  class EncoderParameters {
    var p: Params

    constructor ()
      ensures p == ZEROED
    {
      p := ZEROED;
    }

    /** The control callback; false is -EINVAL. */
    method SetControl(c: Control) returns (ok: bool)
      modifies this
      ensures p == Applied(old(p), c) && ok == Known(c)
    {
      ok := true;
      var v := c.val;
      match c.id {
        case AudioMute => p := p.(mute := v);
        case Brightness => p := p.(brightness := v);
        case StreamType =>
        case Bitrate => p := p.(bitrate := v);
        case BitratePeak => p := p.(peak := v);
        case BitrateMode =>
          if v == MODE_VBR {
            p := p.(mode := 1);
          } else if v == MODE_CBR {
            p := p.(mode := 0);
          } else {
            ok := false;
          }
        case GopSize =>
          p := p.(gop := v);
          if p.gop == 1 && p.mode == 1 {
            p := p.(mode := 0);
          }
        case H264Level =>
          if v <= 15 {
            p := p.(level := v);
          } else {
            ok := false;
          }
        case EntropyMode =>
          if v == ENTROPY_CABAC {
            p := p.(entropy := 1);
          } else if v == ENTROPY_CAVLC {
            p := p.(entropy := 0);
          } else {
            ok := false;
          }
        case H264Profile =>
          if v == PROFILE_BASELINE {
            p := p.(profile := 0);
          } else if v == PROFILE_MAIN {
            p := p.(profile := 1);
          } else if v == PROFILE_HIGH {
            p := p.(profile := 2);
          } else {
            ok := false;
          }
        case Unknown => ok := false;
      }
    }
  }

  /** Does the callback know the control and the value? */
  predicate Known(c: Control) {
    match c.id
    case BitrateMode => c.val == MODE_VBR || c.val == MODE_CBR
    case H264Level => c.val <= 15
    case EntropyMode => c.val == ENTROPY_CABAC || c.val == ENTROPY_CAVLC
    case H264Profile => c.val == PROFILE_BASELINE || c.val == PROFILE_MAIN || c.val == PROFILE_HIGH
    case Unknown => false
    case _ => true
  }

  function Applied(p: Params, c: Control): Params {
    var v := c.val;
    if !Known(c) then p
    else
      match c.id
      case AudioMute => p.(mute := v)
      case Brightness => p.(brightness := v)
      case Bitrate => p.(bitrate := v)
      case BitratePeak => p.(peak := v)
      case BitrateMode => p.(mode := if v == MODE_VBR then 1 else 0)
      case GopSize => p.(gop := v, mode := if v == 1 && p.mode == 1 then 0 else p.mode)
      case H264Level => p.(level := v)
      case EntropyMode => p.(entropy := v)
      case H264Profile => p.(profile := if v == PROFILE_BASELINE then 0 else if v == PROFILE_MAIN then 1 else 2)
      case _ => p
  }

  /** What changes the parameters: a call of the control callback, or a format with a scaler size. */
  datatype Action = Ctrl(c: Control) | SetFormat(width: nat, height: nat)

  predicate ActionOk(a: Action) {
    match a
    case Ctrl(c) => InRange(c)
    case SetFormat(w, h) => w < 0x10000 && h < 0x10000
  }

  function Act(p: Params, a: Action): Params {
    match a
    case Ctrl(c) => Applied(p, c)
    case SetFormat(w, h) => p.(outWidth := w, outHeight := h)
  }

  function ActAll(p: Params, actions: seq<Action>): Params
    decreases |actions|
  {
    if actions == [] then p else ActAll(Act(p, actions[0]), actions[1..])
  }

  /** The parameters after the callback was called with the default of every control at registration. */
  function Registered(): Params {
    var p := Applied(ZEROED, Control(AudioMute, 0));
    var p := Applied(p, Control(Brightness, 127));
    var p := Applied(p, Control(GopSize, MAX_GOP));
    var p := Applied(p, Control(Bitrate, MAX_BITRATE));
    var p := Applied(p, Control(BitratePeak, MAX_BITRATE));
    var p := Applied(p, Control(BitrateMode, MODE_VBR));
    var p := Applied(p, Control(H264Level, 11));
    var p := Applied(p, Control(EntropyMode, ENTROPY_CAVLC));
    var p := Applied(p, Control(H264Profile, PROFILE_HIGH));
    Applied(p, Control(StreamType, STREAM_MPEG2_TS))
  }

  ghost predicate RatesFit(p: Params) {
    && MIN_BITRATE <= p.bitrate <= MAX_BITRATE && MIN_BITRATE <= p.peak <= MAX_BITRATE
    && MIN_GOP <= p.gop <= MAX_GOP
  }

  ghost predicate MenusFit(p: Params) {
    p.level < 16 && p.profile < 3 && p.entropy < 2 && p.mode < 2
  }

  ghost predicate SizeFits(p: Params) {
    p.outWidth < 0x10000 && p.outHeight < 0x10000
  }

  /** Parameters that fit their fields. */
  ghost predicate Fits(p: Params) {
    RatesFit(p) && MenusFit(p) && SizeFits(p)
  }

  lemma RatesStayFit(p: Params, c: Control)
    requires RatesFit(p) && InRange(c)
    ensures RatesFit(Applied(p, c))
  {
  }

  lemma MenusStayFit(p: Params, c: Control)
    requires MenusFit(p)
    ensures MenusFit(Applied(p, c))
  {
  }

  lemma ActionFits(p: Params, a: Action)
    requires Fits(p) && ActionOk(a)
    ensures Fits(Act(p, a))
  {
    if a.Ctrl? {
      RatesStayFit(p, a.c);
      MenusStayFit(p, a.c);
    }
  }

  lemma {:induction false} ActionsFit(p: Params, actions: seq<Action>)
    requires Fits(p) && forall i | 0 <= i < |actions| :: ActionOk(actions[i])
    ensures Fits(ActAll(p, actions))
    decreases |actions|
  {
    if actions != [] {
      ActionFits(p, actions[0]);
      ActionsFit(Act(p, actions[0]), actions[1..]);
    }
  }

  lemma {:induction false} ActAllMore(p: Params, actions: seq<Action>, a: Action)
    ensures ActAll(p, actions + [a]) == Act(ActAll(p, actions), a)
    decreases |actions|
  {
    if actions == [] {
      assert [] + [a] == [a] && [a][1..] == [];
    } else {
      CutLeft(actions, [a], 1);
      ActAllMore(Act(p, actions[0]), actions[1..], a);
    }
  }

  predicate SetsGop(a: Action) {
    a.Ctrl? && a.c.id == GopSize
  }

  const ONE_PICTURE := Ctrl(Control(GopSize, 1))
  const SET_VBR := Ctrl(Control(BitrateMode, MODE_VBR))
  const SET_CBR := Ctrl(Control(BitrateMode, MODE_CBR))

  /** Action j sets the GOP to one picture, and no later one sets the GOP again. */
  ghost predicate LastGopIsOne(actions: seq<Action>, j: nat) {
    j < |actions| && actions[j] == ONE_PICTURE && forall k | j < k < |actions| :: !SetsGop(actions[k])
  }

  /** Action i sets VBR, and no later one sets CBR. */
  ghost predicate VbrStays(actions: seq<Action>, i: nat) {
    i < |actions| && actions[i] == SET_VBR && forall k | i < k < |actions| :: actions[k] != SET_CBR
  }

  ghost predicate OneEnds(actions: seq<Action>) {
    exists j: nat :: LastGopIsOne(actions, j)
  }

  ghost predicate VbrAfterOne(actions: seq<Action>) {
    exists i: nat, j: nat :: LastGopIsOne(actions, j) && VbrStays(actions, i) && j < i
  }

  /** What one more action does to these. */
  lemma OneEndsMore(before: seq<Action>, a: Action)
    ensures OneEnds(before + [a]) <==> a == ONE_PICTURE || (!SetsGop(a) && OneEnds(before))
  {
    var actions, n := before + [a], |before|;
    if OneEnds(actions) {
      var j: nat :| LastGopIsOne(actions, j);
      if j < n {
        assert actions[n] == a && !SetsGop(a);
        assert forall k | j < k < n :: actions[k] == before[k];
        assert LastGopIsOne(before, j);
      }
    }
    if a == ONE_PICTURE {
      assert LastGopIsOne(actions, n);
    } else if !SetsGop(a) && OneEnds(before) {
      var j: nat :| LastGopIsOne(before, j);
      assert LastGopIsOne(actions, j);
    }
  }

  lemma VbrAfterOneMore(before: seq<Action>, a: Action)
    ensures VbrAfterOne(before + [a])
            <==> (a == SET_VBR && OneEnds(before)) || (!SetsGop(a) && a != SET_CBR && VbrAfterOne(before))
  {
    var actions, n := before + [a], |before|;
    assert forall k | 0 <= k < n :: actions[k] == before[k];
    assert actions[n] == a;
    if VbrAfterOne(actions) {
      var i: nat, j: nat :| LastGopIsOne(actions, j) && VbrStays(actions, i) && j < i;
      assert LastGopIsOne(before, j);
      if i < n {
        assert VbrStays(before, i);
      }
    }
    if a == SET_VBR && OneEnds(before) {
      var j: nat :| LastGopIsOne(before, j);
      assert LastGopIsOne(actions, j) && VbrStays(actions, n);
    } else if !SetsGop(a) && a != SET_CBR && VbrAfterOne(before) {
      var i: nat, j: nat :| LastGopIsOne(before, j) && VbrStays(before, i) && j < i;
      assert LastGopIsOne(actions, j) && VbrStays(actions, i);
    }
  }

  lemma GopStep(p: Params, a: Action)
    requires p.mode < 2
    ensures var q := Act(p, a);
            && q.mode < 2
            && (q.gop == 1 <==> a == ONE_PICTURE || (!SetsGop(a) && p.gop == 1))
            && (q.gop == 1 && q.mode == 1
                <==> p.gop == 1 && (a == SET_VBR || (p.mode == 1 && !SetsGop(a) && a != SET_CBR)))
  {
  }

  lemma {:induction false} GopRun(actions: seq<Action>)
    ensures var p := ActAll(Registered(), actions);
            p.mode < 2 && (p.gop == 1 <==> OneEnds(actions))
            && (p.gop == 1 && p.mode == 1 <==> VbrAfterOne(actions))
    decreases |actions|
  {
    if actions != [] {
      var before, a := actions[..|actions| - 1], actions[|actions| - 1];
      assert actions == before + [a];
      GopRun(before);
      ActAllMore(Registered(), before, a);
      GopStep(ActAll(Registered(), before), a);
      OneEndsMore(before, a);
      VbrAfterOneMore(before, a);
    }
  }

  /** A GOP of one picture in VBR mode, which setting the GOP excludes: after any run of controls and
      formats from the registered defaults, the encoder is set to it if and only if VBR was set after
      the last setting of the GOP, which was to one picture, and CBR not after that. */
  lemma OnePictureGopInVbrIff(actions: seq<Action>)
    ensures var p := ActAll(Registered(), actions);
            (p.gop == 1 && p.mode == 1) <==> VbrAfterOne(actions)
  {
    GopRun(actions);
  }

  // ---------------------------------------------------------------- what the parameters are

  /** What a value of a control means to the hardware; None if the callback refuses it. */
  function Meaning(c: Control): Option<nat> {
    match c.id
    case H264Level => if c.val <= 15 then Some(c.val) else None
    case EntropyMode => if c.val <= 1 then Some(c.val) else None
    case H264Profile =>
      if c.val == 0 then Some(0) else if c.val == 2 then Some(1) else if c.val == 4 then Some(2) else None
    case _ => Some(c.val)
  }

  /** The controls that stand for one parameter each. The mode is apart, because the GOP can change it. */
  predicate Plain(id: ControlId) {
    !id.BitrateMode? && !id.StreamType? && !id.Unknown?
  }

  function Parameter(p: Params, id: ControlId): nat
    requires Plain(id)
  {
    match id
    case AudioMute => p.mute
    case Brightness => p.brightness
    case Bitrate => p.bitrate
    case BitratePeak => p.peak
    case GopSize => p.gop
    case H264Level => p.level
    case EntropyMode => p.entropy
    case H264Profile => p.profile
  }

  function Default(id: ControlId): nat
    requires Plain(id)
  {
    match id
    case AudioMute => 0
    case Brightness => 127
    case Bitrate => 20000000
    case BitratePeak => 20000000
    case GopSize => 60
    case H264Level => 11
    case EntropyMode => 0
    case H264Profile => 2
  }

  /** What the last accepted setting of a control means, or its default. */
  function LastSet(actions: seq<Action>, id: ControlId): nat
    requires Plain(id)
  {
    if actions == [] then Default(id)
    else
      var a := actions[|actions| - 1];
      if a.Ctrl? && a.c.id == id && Meaning(a.c).Some? then Meaning(a.c).value
      else LastSet(actions[..|actions| - 1], id)
  }

  /** VBR unless CBR, or a GOP of one picture, was set since. */
  function VbrLast(actions: seq<Action>): bool {
    if actions == [] then true
    else
      var a := actions[|actions| - 1];
      if a == SET_VBR then true
      else if a == SET_CBR || a == ONE_PICTURE then false
      else VbrLast(actions[..|actions| - 1])
  }

  function LastFormat(actions: seq<Action>): (nat, nat) {
    if actions == [] then (0, 0)
    else
      var a := actions[|actions| - 1];
      if a.SetFormat? then (a.width, a.height) else LastFormat(actions[..|actions| - 1])
  }

  lemma ActSets(p: Params, a: Action, id: ControlId)
    requires Plain(id)
    ensures Parameter(Act(p, a), id)
            == if a.Ctrl? && a.c.id == id && Meaning(a.c).Some? then Meaning(a.c).value else Parameter(p, id)
  {
  }

  lemma ActSetsRest(p: Params, a: Action)
    requires p.mode < 2
    ensures var q := Act(p, a);
            && q.mode < 2
            && (q.mode == 1 <==> a == SET_VBR || (p.mode == 1 && a != SET_CBR && a != ONE_PICTURE))
            && (q.outWidth, q.outHeight) == (if a.SetFormat? then (a.width, a.height) else (p.outWidth, p.outHeight))
  {
  }

  lemma DefaultsRegistered(id: ControlId)
    requires Plain(id)
    ensures Parameter(Registered(), id) == Default(id)
  {
  }

  /** After any run of controls and formats every parameter is what was last set. */
  lemma {:induction false} ParametersAreLastSet(actions: seq<Action>, id: ControlId)
    requires Plain(id)
    ensures var p := ActAll(Registered(), actions);
            && Parameter(p, id) == LastSet(actions, id)
            && p.mode == (if VbrLast(actions) then 1 else 0)
            && (p.outWidth, p.outHeight) == LastFormat(actions)
    decreases |actions|
  {
    if actions == [] {
      DefaultsRegistered(id);
    } else {
      var before, a := actions[..|actions| - 1], actions[|actions| - 1];
      assert actions == before + [a];
      ParametersAreLastSet(before, id);
      ActAllMore(Registered(), before, a);
      ActSets(ActAll(Registered(), before), a, id);
      ActSetsRest(ActAll(Registered(), before), a);
    }
  }

  /** The callback accepts a control exactly when it knows it and the value means something. */
  lemma KnownIff(c: Control)
    ensures Known(c) <==> !c.id.Unknown? && (c.id.BitrateMode? ==> c.val == 0 || c.val == 1) && Meaning(c).Some?
  {
  }

  // ---------------------------------------------------------------- the command that starts the encoder

  /** The detected timing; the totals are the u32 sums of active and blanking parts. */
  datatype Timing = Timing(width: nat, height: nat, interlaced: bool, htotal: nat, vtotal: nat, pixelclock: nat)

  function FrameSize(t: Timing): nat {
    t.htotal * t.vtotal
  }

  function Hundredths(pixelclock: nat, frame: nat): nat
    requires frame > 0
  {
    100 * pixelclock % 0x1_0000_0000_0000_0000 / frame % 0x1_0000_0000
  }

  /** Frames per second, by way of hundredths, in u64 and u32 arithmetic. */
  function Fps(t: Timing): Option<nat> {
    var frame := FrameSize(t) % 0x1_0000_0000;
    if frame == 0 then None else Some(Hundredths(t.pixelclock, frame) / 100)
  }

  /** The two divisions give the whole number of frames per second. */
  lemma FpsIsFloor(t: Timing)
    requires 0 < FrameSize(t) < 0x1_0000_0000
    requires 100 * t.pixelclock < 0x1_0000_0000_0000_0000
    requires 100 * t.pixelclock / FrameSize(t) < 0x1_0000_0000
    ensures Fps(t) == Some(t.pixelclock / FrameSize(t))
  {
    HundredthsFit(t.pixelclock, FrameSize(t));
    SmallMod(FrameSize(t), 0x1_0000_0000);
    FloorTwice(t.pixelclock, FrameSize(t));
  }

  lemma HundredthsFit(c: nat, d: nat)
    requires d > 0 && 100 * c < 0x1_0000_0000_0000_0000 && 100 * c / d < 0x1_0000_0000
    ensures Hundredths(c, d) == 100 * c / d
  {
    SmallMod(100 * c, 0x1_0000_0000_0000_0000);
    SmallMod(100 * c / d, 0x1_0000_0000);
  }

  lemma SmallMod(n: nat, m: nat)
    requires n < m
    ensures n % m == n
  {
  }

  lemma FloorTwice(c: nat, d: nat)
    requires d > 0
    ensures 100 * c / d / 100 == c / d
  {
    var q, r := c / d, c % d;
    var s, u := 100 * r / d, 100 * r % d;
    assert c == q * d + r;
    assert 100 * r == s * d + u;
    Below(100 * r, d, s, u);
    Distribute(c, d, q, r, s, u);
    Quotient(100 * c, d, 100 * q + s, u);
  }

  lemma Below(n: nat, d: nat, s: nat, u: nat)
    requires n == s * d + u && n < 100 * d
    ensures s < 100
  {
    assert s >= 100 ==> s * d >= 100 * d;
  }

  lemma Distribute(c: nat, d: nat, q: nat, r: nat, s: nat, u: nat)
    requires c == q * d + r && 100 * r == s * d + u
    ensures 100 * c == (100 * q + s) * d + u
  {
  }

  lemma Quotient(n: nat, d: nat, q: nat, r: nat)
    requires d > 0 && n == q * d + r && r < d
    ensures n / d == q
  {
    var e := n / d - q;
    assert e * d == r - n % d;
    assert e >= 1 ==> e * d >= d;
    assert e <= -1 ==> e * d <= 0 - d;
  }

  /** The output size: the scaler's if one is set. The height follows the width's setting. */
  function OutWidth(p: Params, t: Timing): nat {
    if p.outWidth != 0 then p.outWidth else t.width
  }

  function OutHeight(p: Params, t: Timing): nat {
    if p.outWidth != 0 then p.outHeight else t.height
  }

  /** So a size that is set in one dimension only is not completed from the input: each dimension
      falls back on its own exactly when both or neither are set, or it makes no difference. */
  lemma OutputFallsBackIff(p: Params, t: Timing)
    ensures OutHeight(p, t) == (if p.outHeight != 0 then p.outHeight else t.height)
            <==> (p.outWidth != 0 <==> p.outHeight != 0) || t.height == p.outHeight
                 || (p.outWidth != 0 && t.height == 0)
  {
  }

  /** 1080p above 30 frames is halved, which the encoder needs. */
  function OutFps(t: Timing, fps: nat): nat {
    if t.width == 1920 && t.height == 1080 && !t.interlaced && fps > 30 then fps / 2 else fps
  }

  /** What the start command has to say. */
  datatype Settings = Settings(level: word, entropy: word, profile: word, mode: word, gop: word,
                               kbps: word, peakKbps: word, inFps: word, outFps: word,
                               inWidth: word, inHeight: word, outWidth: word, outHeight: word)

  /** Values that fit the fields of the command. */
  ghost predicate FieldsFit(x: Settings) {
    && x.level < 16 && x.entropy < 2 && x.profile < 4 && x.mode < 2 && x.gop < 0x10000
    && x.kbps < 0x10000 && x.peakKbps < 0x10000 && x.inFps < 128 && x.outFps < 512
    && x.inWidth < 0x10000 && x.inHeight < 0x10000 && x.outWidth < 0x10000 && x.outHeight < 0x10000
  }

  /** The words of the command that carry fields. */
  function ModeWord(x: Settings): word {
    0x21010019 | (x.level << 12) | (x.entropy << 26) | (x.profile << 8)
  }

  function SizeWord(width: word, height: word): word {
    (height << 16) | width
  }

  function FpsWord(x: Settings): word {
    (x.outFps << 23) | (x.inFps << 16) | 0x0609
  }

  function RateWord(x: Settings): word {
    (0x0050 << 16) | x.kbps | (x.mode << 31)
  }

  function PeakWord(x: Settings): word {
    (x.peakKbps << 16) | x.kbps
  }

  function GopWord(x: Settings): word {
    0xe0010000 | x.gop
  }

  function Packed(x: Settings): (c: seq<word>)
    ensures |c| == 12
  {
    [0x00000001, ModeWord(x), SizeWord(x.inWidth, x.inHeight), FpsWord(x), RateWord(x), PeakWord(x), 0x48002000,
     GopWord(x), SizeWord(x.outWidth, x.outHeight), 0xc00000d0, 0x21121080, 0x465001f2]
  }

  /** The fields where the encoder looks for them. */
  function Fields(m: word, i: word, f: word, r: word, k: word, g: word, o: word): Settings {
    Settings((m >> 12) & 0xf, (m >> 26) & 0x1, (m >> 8) & 0x3, r >> 31, g & 0xffff, k & 0xffff, k >> 16,
             (f >> 16) & 0x7f, f >> 23, i & 0xffff, i >> 16, o & 0xffff, o >> 16)
  }

  function Unpacked(c: seq<word>): Settings
    requires |c| == 12
  {
    Fields(c[1], c[2], c[3], c[4], c[5], c[7], c[8])
  }

  /** Packing loses nothing exactly when every value fits its field: then it is where the encoder
      looks for it. */
  lemma PackingIsLosslessIff(x: Settings)
    ensures Unpacked(Packed(x)) == x <==> FieldsFit(x)
  {
    var c := Packed(x);
    if FieldsFit(x) {
      ModeAndGop(x);
      FpsKept(x);
      RateKept(x);
      PeakKept(x);
      Sizes(x.inWidth, x.inHeight);
      Sizes(x.outWidth, x.outHeight);
      Reassemble(c[1], c[2], c[3], c[4], c[5], c[7], c[8], x);
    }
    FieldsAreSmall(c[1], c[2], c[3], c[4], c[5], c[7], c[8]);
  }

  lemma FieldsAreSmall(m: word, i: word, f: word, r: word, k: word, g: word, o: word)
    ensures FieldsFit(Fields(m, i, f, r, k, g, o))
  {
    Masked(m, i, f);
    Masked(r, k, g);
    Masked(o, o, o);
    Shifted(m, f, r);
  }

  lemma Masked(a: word, b: word, c: word)
    ensures a & 0xffff < 0x10000 && b & 0xffff < 0x10000 && c & 0xffff < 0x10000
    ensures a >> 16 < 0x10000 && b >> 16 < 0x10000 && c >> 16 < 0x10000
  {
  }

  lemma Shifted(m: word, f: word, r: word)
    ensures (m >> 12) & 0xf < 16 && (m >> 26) & 0x1 < 2 && (m >> 8) & 0x3 < 4
    ensures (f >> 16) & 0x7f < 128 && f >> 23 < 512 && r >> 31 < 2
  {
  }

  lemma Reassemble(m: word, i: word, f: word, r: word, k: word, g: word, o: word, x: Settings)
    requires ModeHolds(m, x) && SizeHolds(i, x.inWidth, x.inHeight) && FpsHolds(f, x) && RateHolds(r, x)
    requires PeakHolds(k, x) && g & 0xffff == x.gop && SizeHolds(o, x.outWidth, x.outHeight)
    ensures Fields(m, i, f, r, k, g, o) == x
  {
  }

  ghost predicate ModeHolds(w: word, x: Settings) {
    (w >> 12) & 0xf == x.level && (w >> 26) & 0x1 == x.entropy && (w >> 8) & 0x3 == x.profile
  }

  ghost predicate FpsHolds(w: word, x: Settings) {
    w >> 23 == x.outFps && (w >> 16) & 0x7f == x.inFps
  }

  ghost predicate RateHolds(w: word, x: Settings) {
    w >> 31 == x.mode && w & 0xffff == x.kbps
  }

  ghost predicate PeakHolds(w: word, x: Settings) {
    w & 0xffff == x.kbps && w >> 16 == x.peakKbps
  }

  ghost predicate SizeHolds(w: word, width: word, height: word) {
    w & 0xffff == width && w >> 16 == height
  }

  /** The rate appears in both words that carry it, and the fixed bits around the fields are
      undisturbed. */
  lemma FixedBitsAreKept(x: Settings)
    requires FieldsFit(x)
    ensures RateWord(x) & 0xffff == x.kbps && RateWord(x) & 0x7fff0000 == 0x00500000
    ensures ModeWord(x) & 0xfbff0cff == 0x21010019 && FpsWord(x) & 0xffff == 0x0609
    ensures GopWord(x) & 0xffff0000 == 0xe0010000
    ensures var c := Packed(x);
            c[0] == 1 && c[6] == 0x48002000 && c[9] == 0xc00000d0 && c[10] == 0x21121080 && c[11] == 0x465001f2
  {
    ModeAndGop(x);
    FpsKept(x);
    RateKept(x);
  }

  lemma ModeAndGop(x: Settings)
    requires FieldsFit(x)
    ensures ModeHolds(ModeWord(x), x) && ModeWord(x) & 0xfbff0cff == 0x21010019
    ensures GopWord(x) & 0xffff == x.gop && GopWord(x) & 0xffff0000 == 0xe0010000
  {
  }

  lemma FpsKept(x: Settings)
    requires FieldsFit(x)
    ensures FpsHolds(FpsWord(x), x) && FpsWord(x) & 0xffff == 0x0609
  {
  }

  lemma RateKept(x: Settings)
    requires FieldsFit(x)
    ensures RateHolds(RateWord(x), x) && RateWord(x) & 0x7fff0000 == 0x00500000
  {
  }

  lemma PeakKept(x: Settings)
    requires FieldsFit(x)
    ensures PeakHolds(PeakWord(x), x)
  {
  }

  lemma Sizes(width: word, height: word)
    requires width < 0x10000 && height < 0x10000
    ensures SizeHolds(SizeWord(width, height), width, height)
  {
  }

  /** The u32 that holds a value. */
  function Low(n: nat): word {
    if n < 0x1_0000_0000 then n as word else (n % 0x1_0000_0000) as word
  }

  /** The settings a capture starts with. */
  function SettingsOf(p: Params, t: Timing, fps: nat): Settings {
    Settings(Low(p.level), Low(p.entropy), Low(p.profile), Low(p.mode), Low(p.gop),
             Low(p.bitrate / 1000), Low(p.peak / 1000), Low(fps), Low(OutFps(t, fps)),
             Low(t.width), Low(t.height), Low(OutWidth(p, t)), Low(OutHeight(p, t)))
  }

  /** The words of the start command. */
  function StartCommand(p: Params, t: Timing, fps: nat): (c: seq<word>)
    ensures |c| == 12
  {
    Packed(SettingsOf(p, t, fps))
  }

  /** What the encoder reads out of the command is what was set, field by field. */
  ghost predicate Says(u: Settings, p: Params, t: Timing, fps: nat)
    requires Fits(p) && InputFits(t, fps)
  {
    SaysMenus(u, p) && SaysRates(u, p) && SaysInput(u, t, fps) && SaysSize(u, p, t) && SaysOutFps(u, t, fps)
  }

  ghost predicate SaysMenus(u: Settings, p: Params)
    requires Fits(p)
  {
    && u.level == p.level as word && u.entropy == p.entropy as word && u.profile == p.profile as word
    && u.mode == p.mode as word && u.gop == p.gop as word
  }

  ghost predicate SaysRates(u: Settings, p: Params)
    requires Fits(p)
  {
    u.kbps == (p.bitrate / 1000) as word && u.peakKbps == (p.peak / 1000) as word
  }

  ghost predicate SaysInput(u: Settings, t: Timing, fps: nat)
    requires InputFits(t, fps)
  {
    u.inWidth == t.width as word && u.inHeight == t.height as word && u.inFps == fps as word
  }

  /** The scaler's size if a width is set. */
  ghost predicate SaysSize(u: Settings, p: Params, t: Timing)
    requires Fits(p) && t.width < 0x10000 && t.height < 0x10000
  {
    && (p.outWidth != 0 ==> u.outWidth == p.outWidth as word && u.outHeight == p.outHeight as word)
    && (p.outWidth == 0 ==> u.outWidth == t.width as word && u.outHeight == t.height as word)
  }

  /** Half the frames of progressive 1080p above 30. */
  ghost predicate SaysOutFps(u: Settings, t: Timing, fps: nat)
    requires fps < 128
  {
    && (Halved(t, fps) ==> u.outFps == (fps / 2) as word)
    && (!Halved(t, fps) ==> u.outFps == fps as word)
  }

  predicate Halved(t: Timing, fps: nat) {
    t.width == 1920 && t.height == 1080 && !t.interlaced && fps > 30
  }

  ghost predicate InputFits(t: Timing, fps: nat) {
    t.width < 0x10000 && t.height < 0x10000 && fps < 128
  }

  lemma CommandSays(p: Params, t: Timing, fps: nat)
    requires Fits(p) && InputFits(t, fps)
    ensures Says(Unpacked(StartCommand(p, t, fps)), p, t, fps)
  {
    FittingSaid(p, t, fps);
    SettingsAre(p, t, fps);
  }

  lemma LowIs(n: nat)
    requires n < 0x1_0000_0000
    ensures Low(n) == n as word
  {
  }

  lemma MenusAre(p: Params, t: Timing, fps: nat)
    requires Fits(p)
    ensures SaysMenus(SettingsOf(p, t, fps), p)
  {
    LowIs(p.level);
    LowIs(p.entropy);
    LowIs(p.profile);
    LowIs(p.mode);
    LowIs(p.gop);
  }

  lemma RatesAre(p: Params, t: Timing, fps: nat)
    requires Fits(p)
    ensures SaysRates(SettingsOf(p, t, fps), p)
  {
    LowIs(p.bitrate / 1000);
    LowIs(p.peak / 1000);
  }

  lemma InputIs(p: Params, t: Timing, fps: nat)
    requires InputFits(t, fps)
    ensures SaysInput(SettingsOf(p, t, fps), t, fps)
  {
    LowIs(t.width);
    LowIs(t.height);
    LowIs(fps);
  }

  lemma LowOf(n: nat, m: nat)
    requires n == m < 0x1_0000_0000
    ensures Low(n) == m as word
  {
  }

  lemma SizeIs(p: Params, t: Timing, fps: nat)
    requires Fits(p) && t.width < 0x10000 && t.height < 0x10000
    ensures SaysSize(SettingsOf(p, t, fps), p, t)
  {
    if p.outWidth != 0 {
      LowOf(OutWidth(p, t), p.outWidth);
      LowOf(OutHeight(p, t), p.outHeight);
    } else {
      LowOf(OutWidth(p, t), t.width);
      LowOf(OutHeight(p, t), t.height);
    }
  }

  lemma OutFpsIs(p: Params, t: Timing, fps: nat)
    requires fps < 128
    ensures SaysOutFps(SettingsOf(p, t, fps), t, fps)
  {
    if Halved(t, fps) {
      LowOf(OutFps(t, fps), fps / 2);
    } else {
      LowOf(OutFps(t, fps), fps);
    }
  }

  lemma SettingsAre(p: Params, t: Timing, fps: nat)
    requires Fits(p) && InputFits(t, fps)
    ensures Says(SettingsOf(p, t, fps), p, t, fps)
  {
    MenusAre(p, t, fps);
    RatesAre(p, t, fps);
    InputIs(p, t, fps);
    SizeIs(p, t, fps);
    OutFpsIs(p, t, fps);
  }

  /** The start transition fills the command array, or gives up on a frame of zero size (false). */
  method FillStartCommand(p: Params, t: Timing, cfg: array<word>) returns (ok: bool)
    requires cfg.Length == 12
    modifies cfg
    ensures ok <==> Fps(t).Some?
    ensures ok ==> cfg[..] == StartCommand(p, t, Fps(t).value)
    ensures ok && Fits(p) && InputFits(t, Fps(t).value) ==> Says(Unpacked(cfg[..]), p, t, Fps(t).value)
    ensures !ok ==> cfg[..] == old(cfg[..])
  {
    var fps := Fps(t);
    if fps == None {
      return false;
    }
    FillWords(SettingsOf(p, t, fps.value), cfg);
    if Fits(p) && InputFits(t, fps.value) {
      CommandSays(p, t, fps.value);
    }
    return true;
  }

  method FillWords(x: Settings, cfg: array<word>)
    requires cfg.Length == 12
    modifies cfg
    ensures cfg[..] == Packed(x)
  {
    cfg[0], cfg[1], cfg[2], cfg[3] := 0x00000001, ModeWord(x), SizeWord(x.inWidth, x.inHeight), FpsWord(x);
    cfg[4], cfg[5], cfg[6], cfg[7] := RateWord(x), PeakWord(x), 0x48002000, GopWord(x);
    cfg[8], cfg[9], cfg[10], cfg[11] := SizeWord(x.outWidth, x.outHeight), 0xc00000d0, 0x21121080, 0x465001f2;
  }

  /** After the defaults and any run of controls and formats in range, what the start command says is
      what was set, and the frame rates are those of the input, for inputs of 16-bit size and fewer
      than 128 frames. */
  lemma CommandSaysWhatWasSet(actions: seq<Action>, t: Timing)
    requires forall i | 0 <= i < |actions| :: ActionOk(actions[i])
    requires 0 < t.htotal * t.vtotal < 0x1_0000_0000 && 100 * t.pixelclock < 0x1_0000_0000_0000_0000
    requires t.width < 0x10000 && t.height < 0x10000 && t.pixelclock / (t.htotal * t.vtotal) < 128
    ensures var p, fps := ActAll(Registered(), actions), t.pixelclock / (t.htotal * t.vtotal);
            Fits(p) && Fps(t) == Some(fps) && Says(Unpacked(StartCommand(p, t, fps)), p, t, fps)
  {
    RegisteredFits();
    ActionsFit(Registered(), actions);
    FewFrames(t);
    CommandSays(ActAll(Registered(), actions), t, t.pixelclock / (t.htotal * t.vtotal));
  }

  lemma FewFrames(t: Timing)
    requires 0 < FrameSize(t) < 0x1_0000_0000 && 100 * t.pixelclock < 0x1_0000_0000_0000_0000
    requires t.pixelclock / FrameSize(t) < 128
    ensures Fps(t) == Some(t.pixelclock / FrameSize(t))
  {
    FloorTwice(t.pixelclock, FrameSize(t));
    FpsIsFloor(t);
  }

  lemma RegisteredFits()
    ensures Fits(Registered())
  {
  }

  lemma FittingSaid(p: Params, t: Timing, fps: nat)
    requires Fits(p) && t.width < 0x10000 && t.height < 0x10000 && fps < 128
    ensures var x := SettingsOf(p, t, fps); FieldsFit(x) && Unpacked(Packed(x)) == x
  {
    SettingsFit(p, t, fps);
    PackingIsLosslessIff(SettingsOf(p, t, fps));
  }

  lemma SettingsFit(p: Params, t: Timing, fps: nat)
    requires Fits(p) && t.width < 0x10000 && t.height < 0x10000 && fps < 128
    ensures FieldsFit(SettingsOf(p, t, fps))
  {
    MenusSmall(p.level, p.entropy, p.profile, p.mode);
    Small16(p.gop);
    Small16(p.bitrate / 1000);
    Small16(p.peak / 1000);
    FpsSmall(fps);
    OutFpsSmall(OutFps(t, fps));
    Small16(t.width);
    Small16(t.height);
    Small16(OutWidth(p, t));
    Small16(OutHeight(p, t));
  }

  lemma MenusSmall(level: nat, entropy: nat, profile: nat, mode: nat)
    requires level < 16 && entropy < 2 && profile < 4 && mode < 2
    ensures Low(level) < 16 && Low(entropy) < 2 && Low(profile) < 4 && Low(mode) < 2
  {
  }

  lemma Small16(n: nat)
    requires n < 0x10000
    ensures Low(n) < 0x10000
  {
  }

  lemma FpsSmall(n: nat)
    requires n < 128
    ensures Low(n) < 128
  {
  }

  lemma OutFpsSmall(n: nat)
    requires n < 512
    ensures Low(n) < 512
  {
  }
}
