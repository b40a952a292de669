/** The height window of the submission gate, from the observation of a candidate's
    parent to the verdict, in the source's saturating 64-bit arithmetic. */
module GateWindow {
  import opened Common
  import opened Wire

  const I64_MAX := 0x7fff_ffff_ffff_ffff

  datatype Reason = HeaderMutated | UnknownParent | OutOfHeightWindow | DuplicateSubmit | UnverifiedLimit

  /** What the node said about a parent. `confirmations` is depth + 1 on the best chain
      and -1 off it. */
  datatype Observation = Observation(parent: Bytes, height: nat, confirmations: Option<int>)

  ghost predicate IsObservation(o: Observation) {
    o.height <= U64_MAX && (o.confirmations.Some? ==> -I64_MAX - 1 <= o.confirmations.value <= I64_MAX)
  }

  datatype Meta = Meta(height: nat, parent: Bytes, block: Hash, observedTip: Option<nat>, confirmations: Option<int>)

  datatype MetaError = HeaderTooShort | ParentHeightOverflow | ObservationForOtherParent | ObservedTipOverflow

  datatype MetaResult = Made(meta: Meta) | Failed(error: MetaError)

  /** The local chain as one poll shows it. */
  datatype Chain = Chain(tip: nat, known: Bytes -> bool)

  function SatAdd(a: nat, b: nat): nat {
    if a + b <= U64_MAX then a + b else U64_MAX
  }

  function SatSub(a: nat, b: nat): nat {
    if a >= b then a - b else 0
  }

  /** `CandidateMeta::from_header_bytes`. */
  function FromHeaderBytes(header: Bytes, block: Hash, parent: Option<Observation>): MetaResult {
    if |header| < 36 then Failed(HeaderTooShort)
    else if parent.Some? && parent.value.parent != header[4..36] then Failed(ObservationForOtherParent)
    else
      var parentHeight := if parent.Some? then parent.value.height else 0;
      var confirmations := if parent.Some? then parent.value.confirmations else None;
      if parentHeight + 1 > U64_MAX then Failed(ParentHeightOverflow)
      else if confirmations.Some? && confirmations.value >= 1 then
        var depth := confirmations.value - 1;
        if parentHeight + depth > U64_MAX then Failed(ObservedTipOverflow)
        else Made(Meta(parentHeight + 1, header[4..36], block, Some(parentHeight + depth), confirmations))
      else Made(Meta(parentHeight + 1, header[4..36], block, None, confirmations))
  }

  function Tip(chain: Chain, meta: Meta): nat {
    if meta.observedTip.Some? && meta.observedTip.value > chain.tip then meta.observedTip.value else chain.tip
  }

  /** `chain_rejection`. */
  function ChainRejection(allowedBelow: nat, chain: Chain, block: Hash, meta: Meta): Option<Reason> {
    if meta.block != block then Some(HeaderMutated)
    else if !chain.known(meta.parent) then Some(UnknownParent)
    else
      var tip := Tip(chain, meta);
      if meta.height < SatSub(tip, allowedBelow) || meta.height > SatAdd(tip, 1) then Some(OutOfHeightWindow) else None
  }

  /** The parent was found on the node's best chain. */
  predicate OnBestChain(o: Observation) {
    o.confirmations.Some? && o.confirmations.value >= 1
  }

  /** Exactly when there is no candidate to judge, and why. An observed tip that does not
      fit is an error and never falls back on the polled one. */
  lemma MadeExactly(header: Bytes, block: Hash, o: Observation)
    requires IsObservation(o)
    ensures var made := FromHeaderBytes(header, block, Some(o));
            var short, other := |header| < 36, |header| >= 36 && o.parent != header[4..36];
            var noHeight := o.height == U64_MAX;
            var noTip := OnBestChain(o) && o.height + o.confirmations.value > U64_MAX + 1;
            && (made.Made? <==> !short && !other && !noHeight && !noTip)
            && (made == Failed(HeaderTooShort) <==> short)
            && (made == Failed(ObservationForOtherParent) <==> other)
            && (made == Failed(ParentHeightOverflow) <==> !short && !other && noHeight)
            && (made == Failed(ObservedTipOverflow) <==> !short && !other && !noHeight && noTip)
            && (made.Made? ==> made.meta.height <= U64_MAX && made.meta.block == block && made.meta.parent == o.parent
                               && (made.meta.observedTip.Some? <==> OnBestChain(o)))
  {
    if OnBestChain(o) {
      assert o.confirmations.value - 1 >= 0;
    }
  }

  /** A parent on the best chain whose heights do not overflow never puts a candidate
      above the window. It is inside exactly when the parent is not too deep, and the
      polled tip has not run too far ahead; with an observed tip at least as high as the
      polled one, only the first condition is left. */
  lemma BestChainWindow(header: Bytes, block: Hash, o: Observation, allowedBelow: nat, chain: Chain)
    requires IsObservation(o) && OnBestChain(o) && chain.tip <= U64_MAX
    requires |header| >= 36 && o.parent == header[4..36] && chain.known(o.parent)
    requires o.height < U64_MAX && o.height + o.confirmations.value - 1 <= U64_MAX
    ensures var made := FromHeaderBytes(header, block, Some(o));
            && made.Made? && made.meta.observedTip.Some?
            && made.meta.height <= SatAdd(Tip(chain, made.meta), 1)
            && (ChainRejection(allowedBelow, chain, block, made.meta).None?
                <==> o.confirmations.value <= allowedBelow + 2 && chain.tip <= o.height + 1 + allowedBelow)
            && (made.meta.observedTip.value >= chain.tip ==>
                (ChainRejection(allowedBelow, chain, block, made.meta).None?
                 <==> o.confirmations.value <= allowedBelow + 2))
  {
    var meta := FromHeaderBytes(header, block, Some(o)).meta;
    assert meta.observedTip.value == o.height + o.confirmations.value - 1;
  }

  /** Off the best chain, or with confirmations unreported, the polled tip alone decides
      both bounds. */
  lemma PolledWindow(header: Bytes, block: Hash, o: Observation, allowedBelow: nat, chain: Chain)
    requires IsObservation(o) && !OnBestChain(o) && chain.tip <= U64_MAX
    requires |header| >= 36 && o.parent == header[4..36] && chain.known(o.parent) && o.height < U64_MAX
    ensures var made := FromHeaderBytes(header, block, Some(o));
            made.Made? && (ChainRejection(allowedBelow, chain, block, made.meta).None?
                           <==> o.height <= chain.tip <= o.height + 1 + allowedBelow)
  {
    var meta := FromHeaderBytes(header, block, Some(o)).meta;
    assert meta.height == o.height + 1 && Tip(chain, meta) == chain.tip;
  }

  /** The source's comment says that a candidate without an observation is rejected. It
      is, exactly when the parent is unknown or the polled tip is more than
      `allowedBelow + 1`: near genesis such a candidate passes. */
  lemma UnobservedParent(header: Bytes, block: Hash, allowedBelow: nat, chain: Chain)
    requires |header| >= 36 && chain.tip <= U64_MAX
    ensures var made := FromHeaderBytes(header, block, None);
            made.Made? && (ChainRejection(allowedBelow, chain, block, made.meta).Some?
                           <==> !chain.known(header[4..36]) || chain.tip > allowedBelow + 1)
  {
    var meta := FromHeaderBytes(header, block, None).meta;
    assert meta.height == 1;
  }

  lemma UnobservedParentCanPass()
    ensures exists header, block, chain: Chain ::
              FromHeaderBytes(header, block, None).Made? && chain.tip <= U64_MAX
              && ChainRejection(3, chain, block, FromHeaderBytes(header, block, None).meta).None?
  {
    var header: Bytes := seq(36, i => 0);
    var chain := Chain(4, p => true);
    UnobservedParent(header, 0, 3, chain);
    var made := FromHeaderBytes(header, 0, None);
    assert made.Made? && chain.tip <= U64_MAX && ChainRejection(3, chain, 0, made.meta).None?;
  }
}
