/** Binding of the player's skeletal animation: the "play only on change"
    animation guard, the facing hack on the horizontal scale, and the
    attachment names chosen for the body parts. */
module Spine {

  /** A play command sent to the animation runtime: `spine.play(animation, repeat)`. */
  datatype PlayCall = PlayCall(animation: string, repeat: bool)

  /** Magnitude of the skeleton's scale on both axes. */
  const Scale: real := 0.2

  /** Part numbers used for head, body and feet. */
  const HeadNum: nat := 1
  const BodyNum: nat := 1
  const FeetNum: nat := 1

  // ---------------------------------------------------------------------------
  // The animation guard over a series of requests

  /** Play commands issued by a series of `playAnimation` requests, starting
      with `current` as the tracked animation. */
  function Played(current: string, requests: seq<PlayCall>): (calls: seq<PlayCall>)
    decreases |requests|
  {
    if requests == [] then []
    else
      var r := requests[0];
      (if current != r.animation then [r] else []) + Played(r.animation, requests[1..])
  }

  /** The tracked animation after a series of requests. */
  function Current(current: string, requests: seq<PlayCall>): (tracked: string)
    decreases |requests|
  {
    if requests == [] then current else Current(requests[0].animation, requests[1..])
  }

  /** No play command restarts the animation that is already playing: the first
      command differs from the starting animation and each command differs
      from the one before it. */
  ghost predicate NoRestart(current: string, calls: seq<PlayCall>) {
    (calls != [] ==> calls[0].animation != current) &&
    forall i :: 0 < i < |calls| ==> calls[i].animation != calls[i - 1].animation
  }

  /** After any series of requests the tracked animation is the last one
      requested; no more commands are issued than requests made; a series that
      issues nothing leaves the tracked animation as it was; no command
      restarts the playing animation; and the last command issued names the
      animation that ends up tracked. */
  lemma {:induction false} PlayedFacts(current: string, requests: seq<PlayCall>)
    ensures Current(current, requests) == if requests == [] then current else requests[|requests| - 1].animation
    ensures |Played(current, requests)| <= |requests|
    ensures Played(current, requests) == [] ==> Current(current, requests) == current
    ensures NoRestart(current, Played(current, requests))
    ensures Played(current, requests) != [] ==>
              Played(current, requests)[|Played(current, requests)| - 1].animation == Current(current, requests)
    decreases |requests|
  {
    if requests != [] {
      var r := requests[0];
      PlayedFacts(r.animation, requests[1..]);
      var rest := Played(r.animation, requests[1..]);
      var head: seq<PlayCall> := if current != r.animation then [r] else [];
      assert Played(current, requests) == head + rest;
      if requests[1..] != [] {
        assert requests[1..][|requests[1..]| - 1] == requests[|requests| - 1];
      }
      forall i | 0 < i < |head + rest|
        ensures (head + rest)[i].animation != (head + rest)[i - 1].animation
      {
        if head != [] && i == 1 {
          assert (head + rest)[0] == r;
          assert (head + rest)[1] == rest[0];
        } else if head != [] {
          assert (head + rest)[i] == rest[i - 1] && (head + rest)[i - 1] == rest[i - 2];
        }
      }
      if head == [] && rest != [] {
        assert rest[0].animation != r.animation;
      }
    }
  }

  /** A request for the animation already tracked issues nothing; a request
      for another one issues exactly that command. */
  lemma SingleRequest(current: string, r: PlayCall)
    ensures Played(current, [r]) == if current == r.animation then [] else [r]
    ensures Current(current, [r]) == r.animation
  {
    assert [r][1..] == [];
  }

  /** Extending a series by one request: it issues a command exactly when it
      names another animation than the one tracked after the series. */
  lemma {:induction false} PlayedStep(current: string, requests: seq<PlayCall>, r: PlayCall)
    ensures Played(current, requests + [r]) ==
              Played(current, requests) + (if Current(current, requests) == r.animation then [] else [r])
    ensures Current(current, requests + [r]) == r.animation
    decreases |requests|
  {
    if requests == [] {
      SingleRequest(current, r);
      assert requests + [r] == [r];
    } else {
      var q, first := requests + [r], requests[0];
      var head: seq<PlayCall> := if current != first.animation then [first] else [];
      assert q[0] == first && q[1..] == requests[1..] + [r];
      PlayedStep(first.animation, requests[1..], r);
      assert Played(current, q) == head + Played(first.animation, q[1..]);
      assert Played(current, requests) == head + Played(first.animation, requests[1..]);
      assert Current(current, requests) == Current(first.animation, requests[1..]);
    }
  }

  /** Two requests in a row for the same animation issue at most one command,
      whatever the repeat flags. */
  lemma RepeatedRequestPlaysOnce(current: string, a: string, r1: bool, r2: bool)
    ensures Played(current, [PlayCall(a, r1), PlayCall(a, r2)]) ==
              if current == a then [] else [PlayCall(a, r1)]
  {
    var reqs := [PlayCall(a, r1), PlayCall(a, r2)];
    assert reqs[1..] == [PlayCall(a, r2)];
    SingleRequest(a, PlayCall(a, r2));
  }

  // ---------------------------------------------------------------------------
  // Facing

  /** The horizontal scale after `setFlipXHack(flip)`. */
  function FlipScale(scaleX: real, flip: bool): (r: real)
    ensures r < 0.0 <==> flip
    ensures ((scaleX < 0.0) == flip ==> r == scaleX)
    ensures ((scaleX < 0.0) != flip ==> r == if flip then -Scale else Scale)
  {
    var isFlipped := scaleX < 0.0;
    if flip != isFlipped then (if flip then -Scale else Scale) else scaleX
  }

  /** Setting the same facing twice is the same as setting it once. */
  lemma FlipIdempotent(scaleX: real, flip: bool)
    ensures FlipScale(FlipScale(scaleX, flip), flip) == FlipScale(scaleX, flip)
  {
  }

  // ---------------------------------------------------------------------------
  // Attachment names

  /** Decimal rendering of a part number below 10^21, as `'Head' + n`
      produces it (JavaScript writes larger numbers in exponent form). */
  function NatToString(n: nat): (s: string)
    ensures |s| >= 1
    ensures forall i :: 0 <= i < |s| ==> '0' <= s[i] <= '9'
    ensures n >= 10 ==> s[0] != '0'
    decreases n
  {
    if n < 10 then ["0123456789"[n]] else NatToString(n / 10) + ["0123456789"[n % 10]]
  }

  /** The number a string of decimal digits denotes. */
  function DecimalValue(s: string): nat
    requires forall i :: 0 <= i < |s| ==> '0' <= s[i] <= '9'
    decreases |s|
  {
    if s == [] then 0 else DecimalValue(s[..|s| - 1]) * 10 + (s[|s| - 1] as int - '0' as int)
  }

  /** The digit character for `d` denotes `d`. */
  lemma DigitValue(d: nat)
    requires d < 10
    ensures "0123456789"[d] as int - '0' as int == d
  {
  }

  /** Reading the rendered digits back gives the part number. */
  lemma {:induction false} DecimalRoundTrip(n: nat)
    ensures DecimalValue(NatToString(n)) == n
    decreases n
  {
    var s := NatToString(n);
    DigitValue(n % 10);
    if n < 10 {
      assert s == ["0123456789"[n]];
      assert s[..|s| - 1] == [];
    } else {
      DecimalRoundTrip(n / 10);
      assert s[..|s| - 1] == NatToString(n / 10);
      assert s[|s| - 1] == "0123456789"[n % 10];
    }
  }

  /** Attachment name `<part><n><layer>`, e.g. "Head1Outline". */
  function PartAttachment(part: string, n: nat, layer: string): string {
    part + NatToString(n) + layer
  }

  /** Slot-to-attachment assignment made by `setParts`. */
  function PartsFor(headNum: nat, bodyNum: nat, feetNum: nat): (m: map<string, string>)
    ensures m.Keys == {"HeadOutline", "HeadColor", "BodyOutline", "BodyColor",
                       "LFootOutline", "LFootColor", "RFootOutline", "RFootColor"}
    ensures m["LFootOutline"] == m["RFootOutline"] == PartAttachment("Foot", feetNum, "Outline")
    ensures m["LFootColor"] == m["RFootColor"] == PartAttachment("Foot", feetNum, "Color")
    ensures m["HeadOutline"] == PartAttachment("Head", headNum, "Outline")
    ensures m["HeadColor"] == PartAttachment("Head", headNum, "Color")
    ensures m["BodyOutline"] == PartAttachment("Body", bodyNum, "Outline")
    ensures m["BodyColor"] == PartAttachment("Body", bodyNum, "Color")
  {
    map["HeadOutline" := PartAttachment("Head", headNum, "Outline"),
        "HeadColor" := PartAttachment("Head", headNum, "Color"),
        "BodyOutline" := PartAttachment("Body", bodyNum, "Outline"),
        "BodyColor" := PartAttachment("Body", bodyNum, "Color"),
        "LFootOutline" := PartAttachment("Foot", feetNum, "Outline"),
        "LFootColor" := PartAttachment("Foot", feetNum, "Color"),
        "RFootOutline" := PartAttachment("Foot", feetNum, "Outline"),
        "RFootColor" := PartAttachment("Foot", feetNum, "Color")]
  }

  /** With the part numbers in use, the head slots get "Head1Outline" and
      "Head1Color", and likewise for body and feet. */
  lemma DefaultPartNames()
    ensures PartsFor(HeadNum, BodyNum, FeetNum)["HeadOutline"] == "Head1Outline"
    ensures PartsFor(HeadNum, BodyNum, FeetNum)["BodyColor"] == "Body1Color"
    ensures PartsFor(HeadNum, BodyNum, FeetNum)["RFootOutline"] == "Foot1Outline"
  {
    assert NatToString(1) == "1";
  }

  // ---------------------------------------------------------------------------
  // The skeleton object

  class PlayerSpine {
    /** `spine.customParams.animation`: the animation last requested. */
    var animation: string
    /** `spine.scaleX`, whose sign encodes the facing. */
    var scaleX: real
    var scaleY: real
    /** Play commands sent to the animation runtime, oldest first. */
    var plays: seq<PlayCall>
    /** Skeleton slot -> attachment name. */
    var attachments: map<string, string>

    constructor (animation: string := "idle")
      ensures this.animation == animation
      ensures scaleX == Scale && scaleY == Scale
      ensures plays == []
      ensures attachments == PartsFor(HeadNum, BodyNum, FeetNum)
    {
      this.animation := animation;
      scaleX, scaleY := Scale, Scale;
      plays := [];
      attachments := map[];
      new;
      SetParts();
    }

    /** Attaches the configured head, body and feet parts to their slots. */
    method SetParts()
      modifies this`attachments
      ensures attachments == old(attachments) + PartsFor(HeadNum, BodyNum, FeetNum)
    {
      // the eight `setAttachment` calls, one per slot
      attachments := attachments + PartsFor(HeadNum, BodyNum, FeetNum);
    }

    /** Plays `animation` unless it is the one already tracked. */
    method PlayAnimation(animation: string, repeat: bool := false)
      modifies this`animation, this`plays
      ensures this.animation == animation
      ensures old(this.animation) == animation ==> plays == old(plays)
      ensures old(this.animation) != animation ==> plays == old(plays) + [PlayCall(animation, repeat)]
    {
      if this.animation != animation {
        this.animation := animation;
        plays := plays + [PlayCall(this.animation, repeat)];
      }
    }

    /** Mirrors the skeleton horizontally when `flip` disagrees with the sign
        of the current scale. */
    method SetFlipXHack(flip: bool)
      modifies this`scaleX
      ensures scaleX == FlipScale(old(scaleX), flip)
      ensures scaleX < 0.0 <==> flip
    {
      var isFlipped := scaleX < 0.0;
      if flip != isFlipped {
        scaleX := if flip then -Scale else Scale;
      }
    }
  }
}
