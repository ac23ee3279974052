/** Re-interleaving the frames of different contracts changes no contract. */
module Interleavings {
  import opened Wrappers
  import opened Json
  import CanonicalJson
  import opened Frames
  import opened FrameCodec
  import opened FrameTheorems
  import opened Contracts
  import opened ContractTraces
  import opened Folds

  // ---- Owners fixed by an accepted stream --------------------------------------------

  function OwnerOf(base: seq<Event>, f: Frame): Option<Text> {
    match f
    case OfferFrame(o) => Some(o.id)
    case Accept(_, ref, _, _, _) => Some(ref)
    case _ => LatestAccept(base, |base|, f.contract)
  }

  /** The events of es before n that base assigns to contract id, in order. */
  function Belonging(base: seq<Event>, es: seq<Event>, n: nat, id: Text): seq<Event>
    requires n <= |es|
  {
    if n == 0 then []
    else if OwnerOf(base, es[n - 1].frame) == Some(id) then Belonging(base, es, n - 1, id) + [es[n - 1]]
    else Belonging(base, es, n - 1, id)
  }

  /** es holds the frames of base, each contract's own frames in their old order. */
  ghost predicate Reorders(base: seq<Event>, es: seq<Event>) {
    && (forall i: nat | i < |es| :: OwnerOf(base, es[i].frame).Some?)
    && (forall id :: Belonging(base, es, |es|, id) == Belonging(base, base, |base|, id))
  }

  ghost predicate Decodable(c: Crypto, es: seq<Event>) {
    forall i: nat | i < |es| :: ValidFrame(c.sha, es[i].frame) && CleanFrame(es[i].frame)
  }

  // ---- Positions in a selection --------------------------------------------------------

  lemma {:induction false} BelongingSplit(base: seq<Event>, es: seq<Event>, i: nat, n: nat, id: Text)
    requires i < n <= |es|
    ensures Belonging(base, es, i, id) <= Belonging(base, es, n, id)
    ensures OwnerOf(base, es[i].frame) == Some(id) ==>
              var p := |Belonging(base, es, i, id)|;
              p < |Belonging(base, es, n, id)| && Belonging(base, es, n, id)[p] == es[i]
    decreases n
  {
    hide OwnerOf;
    if i < n - 1 { BelongingSplit(base, es, i, n - 1, id); }
  }

  lemma {:induction false} BelongingMember(base: seq<Event>, es: seq<Event>, n: nat, id: Text, p: nat) returns (j: nat)
    requires n <= |es| && p < |Belonging(base, es, n, id)|
    ensures j < n && es[j] == Belonging(base, es, n, id)[p] && OwnerOf(base, es[j].frame) == Some(id)
    ensures |Belonging(base, es, j, id)| == p
  {
    hide OwnerOf;
    if p < |Belonging(base, es, n - 1, id)| {
      j := BelongingMember(base, es, n - 1, id, p);
    } else {
      j := n - 1;
    }
  }

  // ---- Runs remember their offer and contract --------------------------------------------

  lemma StepKeeps(c: Crypto, s: State, e: Event)
    requires Step(c, s, e).Ok?
    ensures Step(c, s, e).value.offer == s.offer && Step(c, s, e).value.status != Proposed
    ensures s.status != Proposed ==>
              Step(c, s, e).value.contract == s.contract && !e.frame.OfferFrame? && !e.frame.Accept? && Some(e.frame.contract) == s.contract
    ensures e.frame.Accept? ==> e.frame.contract == ContractId(c.sha, s.offer, e.frame)
  {
    hide ContractId;
  }

  lemma {:induction false} RunKeepsContract(c: Crypto, s: State, es: seq<Event>, q: nat)
    requires Run(c, s, es).Ok? && s.status != Proposed && q < |es|
    ensures !es[q].frame.OfferFrame? && !es[q].frame.Accept? && Some(es[q].frame.contract) == s.contract
    decreases |es|
  {
    hide Step;
    StepKeeps(c, s, es[0]);
    if q > 0 { RunKeepsContract(c, Step(c, s, es[0]).value, es[1..], q - 1); }
  }

  lemma {:induction false} RunChecksAccept(c: Crypto, s: State, es: seq<Event>, q: nat)
    requires Run(c, s, es).Ok? && q < |es| && es[q].frame.Accept?
    ensures es[q].frame.contract == ContractId(c.sha, s.offer, es[q].frame)
    decreases |es|
  {
    hide Step, ContractId;
    StepKeeps(c, s, es[0]);
    if q > 0 { RunChecksAccept(c, Step(c, s, es[0]).value, es[1..], q - 1); }
  }

  /** A contract's own frames: offer, then acceptance, then frames naming that contract id. */
  lemma SoloShape(c: Crypto, own: seq<Event>, p: nat)
    requires Solo(c, own).Some? && 0 < p < |own|
    ensures own[0].frame.OfferFrame? && own[1].frame.Accept?
    ensures p >= 2 ==> !own[p].frame.OfferFrame? && !own[p].frame.Accept? && own[p].frame.contract == own[1].frame.contract
  {
    hide Step, ContractId;
    var o, rest := own[0].frame.offer, own[1..];
    AcceptStep(c, o, rest[0]);
    if p >= 2 { RunKeepsContract(c, AcceptedState(o, rest[0].frame), rest[1..], p - 2); }
  }

  // ---- In an accepted stream, contract ids determine offers ---------------------------------

  lemma {:induction false} OwnSplit(es: seq<Event>, i: nat, n: nat, id: Text)
    requires i < n <= |es| && Route(es, i) == Some(id)
    ensures |Own(es, i, id)| < |Own(es, n, id)| && Own(es, n, id)[|Own(es, i, id)|] == es[i]
    ensures Own(es, i, id) <= Own(es, n, id)
    decreases n
  {
    hide Route;
    if i < n - 1 { OwnSplit(es, i, n - 1, id); }
  }

  lemma {:induction false} OwnMember(es: seq<Event>, n: nat, id: Text, p: nat) returns (j: nat)
    requires n <= |es| && p < |Own(es, n, id)|
    ensures j < n && es[j] == Own(es, n, id)[p] && Route(es, j) == Some(id) && |Own(es, j, id)| == p
  {
    hide Route;
    if p < |Own(es, n - 1, id)| { j := OwnMember(es, n - 1, id, p); } else { j := n - 1; }
  }

  /** The offer an accepted acceptance answers, and the digest check it passed. */
  lemma AcceptChecked(c: Crypto, es: seq<Event>, j: nat) returns (q: nat)
    requires Fold(c, es, |es|).Some? && j < |es| && es[j].frame.Accept?
    ensures q < |es| && es[q].frame.OfferFrame?
    ensures es[j].frame.contract == ContractId(c.sha, es[q].frame.offer, es[j].frame)
  {
    hide Step, ContractId, Fold, Mirrors, Line;
    var n, id := |es|, es[j].frame.ref;
    FoldMeaning(c, es, n);
    assert Route(es, j).Some?;
    OwnSplit(es, j, n, id);
    OfferedGrows(es, j, n, id);
    var own := Own(es, n, id);
    assert Solo(c, own).Some?;
    q := OwnMember(es, n, id, 0);
    var p := |Own(es, j, id)|;
    assert p > 0;
    RunChecksAccept(c, Init(own[0].frame.offer), own[1..], p - 1);
  }

  lemma AcceptsAgree(c: Crypto, es: seq<Event>, i: nat, j: nat)
    requires Injective(c.sha) && Decodable(c, es) && Fold(c, es, |es|).Some?
    requires i < |es| && j < |es| && es[i].frame.Accept? && es[j].frame.Accept?
    requires es[i].frame.contract == es[j].frame.contract
    ensures es[i].frame.ref == es[j].frame.ref
  {
    hide Fold, ContractId, CleanFrame, ValidFrame, Injective;
    var p := AcceptChecked(c, es, i);
    var q := AcceptChecked(c, es, j);
    assert es[p].frame == OfferFrame(es[p].frame.offer) && es[q].frame == OfferFrame(es[q].frame.offer);
    ContractIdsAreUnique(c.sha, es[p].frame.offer, es[i].frame, es[q].frame.offer, es[j].frame);
  }

  /** In an accepted stream no contract id is accepted twice. */
  lemma OneAcceptPerContract(c: Crypto, es: seq<Event>, i: nat, j: nat)
    requires Injective(c.sha) && Decodable(c, es) && Fold(c, es, |es|).Some?
    requires i < j < |es| && es[i].frame.Accept? && es[j].frame.Accept?
    ensures es[i].frame.contract != es[j].frame.contract
  {
    hide Fold, Decodable, Injective, Mirrors, Solo, Offered, DistinctLines;
    FoldMeaning(c, es, |es|);
    if es[i].frame.contract == es[j].frame.contract {
      AcceptsAgree(c, es, i, j);
      var id := es[i].frame.ref;
      assert Route(es, i).Some? && Route(es, j).Some?;
      OwnSplit(es, i, j, id);
      OwnSplit(es, i, |es|, id);
      OwnSplit(es, j, |es|, id);
      OwnStartsWithOffer(c, es, i, id);
      SoloShape(c, Own(es, |es|, id), |Own(es, j, id)|);
    }
  }

  lemma OwnStartsWithOffer(c: Crypto, es: seq<Event>, i: nat, id: Text)
    requires Fold(c, es, |es|).Some? && i < |es| && Route(es, i) == Some(id) && es[i].frame.Accept?
    ensures Own(es, i, id) != [] && Solo(c, Own(es, |es|, id)).Some?
  {
    hide Fold, Mirrors, Solo, DistinctLines, Line;
    FoldMeaning(c, es, |es|);
    OfferedGrows(es, i, |es|, id);
    OwnSplit(es, i, |es|, id);
    var own := Own(es, |es|, id);
    assert Solo(c, own).Some?;
    SoloOffer(c, own);
    assert own[|Own(es, i, id)|] == es[i];
  }

  lemma SoloOffer(c: Crypto, own: seq<Event>)
    requires Solo(c, own).Some?
    ensures own != [] && own[0].frame.OfferFrame?
  {
  }

  lemma RouteIsOwner(c: Crypto, es: seq<Event>, i: nat)
    requires Injective(c.sha) && Decodable(c, es) && Fold(c, es, |es|).Some? && i < |es|
    ensures Route(es, i) == OwnerOf(es, es[i].frame) && Route(es, i).Some?
  {
    hide Fold, Decodable, Injective, Mirrors, EachRunsAlone;
    FoldMeaning(c, es, |es|);
    assert Route(es, i).Some?;
    if !es[i].frame.OfferFrame? && !es[i].frame.Accept? {
      var k := es[i].frame.contract;
      var j := LatestAcceptWitness(es, i, k);
      LatestAcceptGrows(es, i, |es|, k);
      var j' := LatestAcceptWitness(es, |es|, k);
      AcceptsAgree(c, es, j, j');
    }
  }

  lemma {:induction false} LatestAcceptGrows(es: seq<Event>, m: nat, n: nat, k: Text)
    requires m <= n <= |es| && LatestAccept(es, m, k).Some?
    ensures LatestAccept(es, n, k).Some?
    decreases n
  {
    if m < n { LatestAcceptGrows(es, m, n - 1, k); }
  }

  lemma {:induction false} LatestAcceptFound(es: seq<Event>, n: nat, j: nat)
    requires j < n <= |es| && es[j].frame.Accept?
    ensures LatestAccept(es, n, es[j].frame.contract).Some?
    decreases n
  {
    if j < n - 1 { LatestAcceptFound(es, n - 1, j); }
  }

  lemma {:induction false} OwnIsBelonging(c: Crypto, base: seq<Event>, es: seq<Event>, n: nat, id: Text)
    requires n <= |es|
    requires forall i: nat | i < n :: Route(es, i) == OwnerOf(base, es[i].frame)
    ensures Own(es, n, id) == Belonging(base, es, n, id)
  {
    hide Route, OwnerOf;
    if n > 0 { OwnIsBelonging(c, base, es, n - 1, id); }
  }

  // ---- The reordered stream --------------------------------------------------------------------

  /** What the two streams share. */
  ghost predicate Setting(c: Crypto, base: seq<Event>, es: seq<Event>) {
    Injective(c.sha) && Decodable(c, base) && Fold(c, base, |base|).Some? && Reorders(base, es)
  }

  lemma SharedOwn(c: Crypto, base: seq<Event>, es: seq<Event>, id: Text)
    requires Setting(c, base, es)
    ensures Belonging(base, es, |es|, id) == Own(base, |base|, id)
    ensures Own(base, |base|, id) != [] ==> Solo(c, Own(base, |base|, id)).Some? && Offered(base, |base|, id)
  {
    hide Fold, Decodable, Injective, Mirrors, Solo, Route, Own, Belonging, OwnerOf, Offered;
    FoldMeaning(c, base, |base|);
    forall i: nat | i < |base|
      ensures Route(base, i) == OwnerOf(base, base[i].frame)
    {
      RouteIsOwner(c, base, i);
    }
    OwnIsBelonging(c, base, base, |base|, id);
    OwnIsOffered(base, |base|, id);
  }

  /** Every reordered event occurs in the base stream. */
  lemma FromBase(c: Crypto, base: seq<Event>, es: seq<Event>, i: nat) returns (j: nat)
    requires Setting(c, base, es) && i < |es|
    ensures j < |base| && base[j] == es[i]
  {
    hide Fold, Decodable, Injective, Route, OwnerOf;
    var id := OwnerOf(base, es[i].frame).value;
    BelongingSplit(base, es, i, |es|, id);
    SharedOwn(c, base, es, id);
    j := OwnMember(base, |base|, id, |Belonging(base, es, i, id)|);
  }

  lemma ReorderedOffered(c: Crypto, base: seq<Event>, es: seq<Event>, i: nat, id: Text)
    requires Setting(c, base, es) && i < |es| && OwnerOf(base, es[i].frame) == Some(id) && !es[i].frame.OfferFrame?
    ensures Offered(es, i, id)
    ensures var p := |Belonging(base, es, i, id)|; 0 < p < |Own(base, |base|, id)| && Own(base, |base|, id)[p] == es[i]
  {
    hide Fold, Decodable, Injective, Route, Run;
    BelongingSplit(base, es, i, |es|, id);
    SharedOwn(c, base, es, id);
    var j := BelongingMember(base, es, i, id, 0);
    assert es[j].frame.OfferFrame? && OwnerOf(base, es[j].frame) == Some(id);
  }

  lemma ReorderedRoute(c: Crypto, base: seq<Event>, es: seq<Event>, i: nat)
    requires Setting(c, base, es) && i < |es|
    ensures Route(es, i) == OwnerOf(base, es[i].frame)
  {
    hide Fold, Decodable, Injective, Offered, Solo, Belonging, Own;
    var id := OwnerOf(base, es[i].frame).value;
    if !es[i].frame.OfferFrame? {
      ReorderedOffered(c, base, es, i, id);
      if !es[i].frame.Accept? { ReorderedDeal(c, base, es, i, id); }
    }
  }

  lemma ReorderedDeal(c: Crypto, base: seq<Event>, es: seq<Event>, i: nat, id: Text)
    requires Setting(c, base, es) && i < |es| && OwnerOf(base, es[i].frame) == Some(id)
    requires !es[i].frame.OfferFrame? && !es[i].frame.Accept?
    ensures LatestAccept(es, i, es[i].frame.contract) == Some(id)
  {
    hide Fold, Decodable, Injective, Offered, Solo, Belonging, Own, Route;
    ReorderedOffered(c, base, es, i, id);
    SharedOwn(c, base, es, id);
    var own, p := Own(base, |base|, id), |Belonging(base, es, i, id)|;
    SoloShape(c, own, p);
    BelongingSplit(base, es, i, |es|, id);
    var j := BelongingMember(base, es, i, id, 1);
    assert es[j] == own[1];
    LatestAcceptFound(es, i, j);
    var j' := LatestAcceptWitness(es, i, es[i].frame.contract);
    var b := FromBase(c, base, es, j);
    var b' := FromBase(c, base, es, j');
    AcceptsAgree(c, base, b, b');
    assert OwnerOf(base, es[j].frame) == Some(id);
  }

  // ---- Lines stay distinct ------------------------------------------------------------------------

  lemma LineInjective(sha: Hash, f: Frame, g: Frame)
    requires ValidFrame(sha, f) && CleanFrame(f) && ValidFrame(sha, g) && CleanFrame(g)
    requires Line(f) == Line(g)
    ensures f == g
  {
    hide FrameJson, ValidFrame, PREFIX, ValidateFrame;
    LineShape(f);
    LineShape(g);
    CanonicalLinesAgree(f, g);
    ValidReadsBack(sha, f);
    ValidReadsBack(sha, g);
  }

  lemma CanonicalLinesAgree(f: Frame, g: Frame)
    requires CleanFrame(f) && CleanFrame(g) && Canonical(FrameJson(f)) == Canonical(FrameJson(g))
    ensures FrameJson(f) == FrameJson(g)
  {
    hide FrameJson;
    CanonicalJson.CanonicalInjective(FrameJson(f), FrameJson(g));
    FrameEntriesAreCanonical(f);
    FrameEntriesAreCanonical(g);
  }


  lemma OwnDistinct(es: seq<Event>, id: Text, p: nat, q: nat)
    requires DistinctLines(es, |es|) && p < q < |Own(es, |es|, id)|
    ensures Line(Own(es, |es|, id)[p].frame) != Line(Own(es, |es|, id)[q].frame)
  {
    hide Line, Route;
    var x := OwnMember(es, |es|, id, p);
    var y := OwnMember(es, |es|, id, q);
    if y < x { OwnGrows(es, y, x, id); }
  }

  lemma {:induction false} OwnGrows(es: seq<Event>, m: nat, n: nat, id: Text)
    requires m <= n <= |es|
    ensures |Own(es, m, id)| <= |Own(es, n, id)|
    decreases n
  {
    hide Route;
    if m < n { OwnGrows(es, m, n - 1, id); }
  }

  lemma SameOwnerDistinct(c: Crypto, base: seq<Event>, es: seq<Event>, i: nat, j: nat)
    requires Setting(c, base, es) && i < j < |es|
    requires OwnerOf(base, es[i].frame) == OwnerOf(base, es[j].frame)
    ensures Line(es[i].frame) != Line(es[j].frame)
  {
    hide Fold, Injective, Line, OwnerOf, Route, Mirrors, EachRunsAlone, Decodable;
    var id := OwnerOf(base, es[i].frame).value;
    SharedOwn(c, base, es, id);
    BelongingSplit(base, es, i, j, id);
    BelongingSplit(base, es, i, |es|, id);
    BelongingSplit(base, es, j, |es|, id);
    FoldMeaning(c, base, |base|);
    OwnDistinct(base, id, |Belonging(base, es, i, id)|, |Belonging(base, es, j, id)|);
  }

  lemma ReorderedDistinct(c: Crypto, base: seq<Event>, es: seq<Event>, i: nat, j: nat)
    requires Setting(c, base, es) && i < j < |es|
    ensures Line(es[i].frame) != Line(es[j].frame)
  {
    hide Fold, Injective, Line, OwnerOf, ValidFrame, CleanFrame, Route;
    if OwnerOf(base, es[i].frame) == OwnerOf(base, es[j].frame) {
      SameOwnerDistinct(c, base, es, i, j);
    } else if Line(es[i].frame) == Line(es[j].frame) {
      var a := FromBase(c, base, es, i);
      var b := FromBase(c, base, es, j);
      LineInjective(c.sha, base[a].frame, base[b].frame);
    }
  }

  /** Re-interleaving an accepted stream, each contract's frames kept in order,
      is accepted and leaves every contract in the same state. */
  lemma ReorderingIsHarmless(c: Crypto, base: seq<Event>, es: seq<Event>)
    requires Injective(c.sha) && Decodable(c, base)
    requires Fold(c, base, |base|).Some? && Reorders(base, es)
    ensures Fold(c, es, |es|).Some?
    ensures Fold(c, es, |es|).value.contracts == Fold(c, base, |base|).value.contracts
  {
    hide Fold, Injective, Line, OwnerOf, Decodable, Route, Solo, Offered, Own, Belonging;
    forall i: nat | i < |es|
      ensures Route(es, i) == OwnerOf(base, es[i].frame)
    {
      ReorderedRoute(c, base, es, i);
    }
    assert Routed(es, |es|);
    forall i: nat, j: nat | i < j < |es|
      ensures Line(es[i].frame) != Line(es[j].frame)
    {
      ReorderedDistinct(c, base, es, i, j);
    }
    FoldMeaning(c, base, |base|);
    forall id
      ensures Own(es, |es|, id) == Own(base, |base|, id)
      ensures Offered(es, |es|, id) <==> Offered(base, |base|, id)
    {
      OwnIsBelonging(c, base, es, |es|, id);
      SharedOwn(c, base, es, id);
      OwnIsOffered(es, |es|, id);
      OwnIsOffered(base, |base|, id);
    }
    FoldMeaning(c, es, |es|);
  }
}
