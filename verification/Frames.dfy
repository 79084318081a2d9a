/** The sensor frame: one sample of one well, the unit the pipeline moves. */
module Frames {

  /** One measured channel: the only thing the pipeline looks at is whether the
      value is a finite number. */
  datatype Channel = Finite(value: real) | NonFinite

  datatype Frame = Frame(
    version: nat, pad: nat, well: nat, epoch: nat, seqNo: nat, tMs: nat,
    pressure: Channel, rate: Channel, proppant: Channel, temp: Channel)

  const FRAME_VERSION: nat := 1

  datatype Verdict = Valid | BadVersion(version: nat) | NonFiniteChannel(name: string)

  /** Contract validation: the version first, then the channels in their order. */
  function Validate(f: Frame): Verdict {
    if f.version != FRAME_VERSION then BadVersion(f.version)
    else if f.pressure.NonFinite? then NonFiniteChannel("pressure_psi")
    else if f.rate.NonFinite? then NonFiniteChannel("rate_bpm")
    else if f.proppant.NonFinite? then NonFiniteChannel("proppant_ppa")
    else if f.temp.NonFinite? then NonFiniteChannel("temp_f")
    else Valid
  }

  predicate IsValid(f: Frame) {
    Validate(f) == Valid
  }

  /** A frame is valid exactly when it is of the one version and all four channels are
      finite numbers. */
  lemma ValidIff(f: Frame)
    ensures IsValid(f) <==>
            f.version == 1 && f.pressure.Finite? && f.rate.Finite? && f.proppant.Finite? && f.temp.Finite?
  {
  }

  /** A refusal names what is wrong: the version, or else the first channel, in their
      order, that is not a finite number. */
  lemma RefusalNamesTheFault(f: Frame)
    ensures var channels := [("pressure_psi", f.pressure), ("rate_bpm", f.rate),
                             ("proppant_ppa", f.proppant), ("temp_f", f.temp)];
            match Validate(f)
            case Valid => true
            case BadVersion(v) => v == f.version != 1
            case NonFiniteChannel(name) =>
              && f.version == 1
              && exists i :: 0 <= i < 4 && channels[i] == (name, NonFinite)
                             && forall j :: 0 <= j < i ==> channels[j].1.Finite?
  {
    var channels := [("pressure_psi", f.pressure), ("rate_bpm", f.rate),
                     ("proppant_ppa", f.proppant), ("temp_f", f.temp)];
    if Validate(f).NonFiniteChannel? {
      var i := if f.pressure.NonFinite? then 0 else if f.rate.NonFinite? then 1
               else if f.proppant.NonFinite? then 2 else 3;
      assert channels[i] == (Validate(f).name, NonFinite);
    }
  }

  /** A signal source. */
  datatype WellId = WellId(pad: nat, well: nat)

  function WellOf(f: Frame): WellId {
    WellId(f.pad, f.well)
  }

  /** The pipeline identity of a frame. */
  datatype Identity = Identity(source: WellId, epoch: nat, seqNo: nat)

  function IdentityOf(f: Frame): Identity {
    Identity(WellOf(f), f.epoch, f.seqNo)
  }

  /** One body per identity: what the generator guarantees and what makes a
      duplicate carry the event time of its original. */
  ghost predicate OneBodyPerIdentity(fs: set<Frame>) {
    forall f, g :: f in fs && g in fs && IdentityOf(f) == IdentityOf(g) ==> f == g
  }

  /** What a message body decodes to: a frame, or bytes that do not parse. */
  datatype Payload = Json(frame: Frame) | Garbage

  /** Parse, then validate: `None` is poison. */
  predicate Usable(p: Payload) {
    p.Json? && IsValid(p.frame)
  }
}
