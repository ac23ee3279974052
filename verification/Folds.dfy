/** Folding one stream of frames over many contracts, and what the fold decides
    about each contract on its own. */
module Folds {
  import opened Wrappers
  import opened Json
  import opened Frames
  import opened FrameCodec
  import opened FrameTheorems
  import opened Contracts
  import opened ContractTraces

  // Every contract by offer id, the offer id behind each accepted contract id,
  // and the lines already seen.
  datatype World = World(contracts: map<Text, State>, byId: map<Text, Text>, seen: set<Text>)

  const EMPTY_WORLD := World(map[], map[], {})

  /** Hands the frame to the contract it names. */
  function Deliver(c: Crypto, w: World, id: Text, e: Event): Option<World> {
    if id !in w.contracts then None
    else
      match Step(c, w.contracts[id], e)
      case Err(_) => None
      case Ok(s) =>
        Some(w.(contracts := w.contracts[id := s],
                byId := if e.frame.Accept? then w.byId[e.frame.contract := id] else w.byId))
  }

  function FoldStep(c: Crypto, w: World, e: Event): Option<World> {
    var line := Line(e.frame);
    if line in w.seen then None
    else
      var v := w.(seen := w.seen + {line});
      match e.frame
      case OfferFrame(o) =>
        if o.id in w.contracts then None else Some(v.(contracts := v.contracts[o.id := Init(o)]))
      case Accept(_, ref, _, _, _) => Deliver(c, v, ref, e)
      case _ => if e.frame.contract in v.byId then Deliver(c, v, v.byId[e.frame.contract], e) else None
  }

  /** The fold over the first n events. */
  function Fold(c: Crypto, es: seq<Event>, n: nat): Option<World>
    requires n <= |es|
  {
    if n == 0 then Some(EMPTY_WORLD)
    else
      match Fold(c, es, n - 1)
      case None => None
      case Some(w) => FoldStep(c, w, es[n - 1])
  }

  // ---- Routing, from the stream alone ------------------------------------------------

  predicate Offered(es: seq<Event>, n: nat, id: Text)
    requires n <= |es|
  {
    exists j: nat :: j < n && es[j].frame.OfferFrame? && es[j].frame.offer.id == id
  }

  /** The offer named by the last acceptance before n that carries this contract id. */
  function LatestAccept(es: seq<Event>, n: nat, contract: Text): Option<Text>
    requires n <= |es|
  {
    if n == 0 then None
    else if es[n - 1].frame.Accept? && es[n - 1].frame.contract == contract then Some(es[n - 1].frame.ref)
    else LatestAccept(es, n - 1, contract)
  }

  /** The offer id event i belongs to: an earlier offer or an earlier acceptance names it. */
  function Route(es: seq<Event>, i: nat): Option<Text>
    requires i < |es|
  {
    match es[i].frame
    case OfferFrame(o) => Some(o.id)
    case Accept(_, ref, _, _, _) => if Offered(es, i, ref) then Some(ref) else None
    case _ => LatestAccept(es, i, es[i].frame.contract)
  }

  predicate Routed(es: seq<Event>, n: nat)
    requires n <= |es|
  {
    forall i: nat | i < n :: Route(es, i).Some?
  }

  predicate DistinctLines(es: seq<Event>, n: nat)
    requires n <= |es|
  {
    forall i: nat, j: nat | i < j < n :: Line(es[i].frame) != Line(es[j].frame)
  }

  /** The frames among the first n that belong to one contract, in order. */
  function Own(es: seq<Event>, n: nat, id: Text): seq<Event>
    requires n <= |es|
  {
    if n == 0 then []
    else if Route(es, n - 1) == Some(id) then Own(es, n - 1, id) + [es[n - 1]]
    else Own(es, n - 1, id)
  }

  /** One contract's frames run alone: the offer, then Contract.apply for the rest. */
  function Solo(c: Crypto, own: seq<Event>): Option<State> {
    if own == [] || !own[0].frame.OfferFrame? then None
    else
      match Run(c, Init(own[0].frame.offer), own[1..])
      case Err(_) => None
      case Ok(s) => Some(s)
  }

  ghost predicate EachRunsAlone(c: Crypto, es: seq<Event>, n: nat)
    requires n <= |es|
  {
    forall id | Offered(es, n, id) :: Solo(c, Own(es, n, id)).Some?
  }

  // ---- Small steps ------------------------------------------------------------------------

  lemma {:induction false} RunAppend(c: Crypto, s: State, es: seq<Event>, e: Event)
    ensures Run(c, s, es + [e]) == match Run(c, s, es) case Err(r) => Err(r) case Ok(t) => Step(c, t, e)
    decreases |es|
  {
    hide Step;
    if es == [] {
      assert ([e])[1..] == [];
      assert es + [e] == [e];
    } else {
      assert (es + [e])[1..] == es[1..] + [e];
      match Step(c, s, es[0])
      case Err(_) =>
      case Ok(t) => RunAppend(c, t, es[1..], e);
    }
  }

  lemma SoloAppend(c: Crypto, own: seq<Event>, e: Event)
    requires own != []
    ensures Solo(c, own + [e]) ==
              match Solo(c, own)
              case None => None
              case Some(s) => match Step(c, s, e) case Err(_) => None case Ok(t) => Some(t)
  {
    hide Step;
    assert (own + [e])[1..] == own[1..] + [e];
    if own[0].frame.OfferFrame? { RunAppend(c, Init(own[0].frame.offer), own[1..], e); }
  }

  lemma {:induction false} LatestAcceptWitness(es: seq<Event>, n: nat, contract: Text) returns (j: nat)
    requires n <= |es| && LatestAccept(es, n, contract).Some?
    ensures j < n && es[j].frame.Accept? && es[j].frame.contract == contract
    ensures LatestAccept(es, n, contract) == Some(es[j].frame.ref)
  {
    if es[n - 1].frame.Accept? && es[n - 1].frame.contract == contract {
      j := n - 1;
    } else {
      j := LatestAcceptWitness(es, n - 1, contract);
    }
  }

  lemma OfferedGrows(es: seq<Event>, m: nat, n: nat, id: Text)
    requires m <= n <= |es| && Offered(es, m, id)
    ensures Offered(es, n, id)
  {
    var j: nat :| j < m && es[j].frame.OfferFrame? && es[j].frame.offer.id == id;
  }

  /** Whatever is routed to a contract comes after its offer. */
  lemma RouteIsOffered(es: seq<Event>, n: nat, i: nat)
    requires i < n <= |es| && Routed(es, n)
    ensures Offered(es, i + 1, Route(es, i).value)
  {
    assert Route(es, i).Some?;
    match es[i].frame
    case OfferFrame(_) =>
    case Accept(_, ref, _, _, _) => OfferedGrows(es, i, i + 1, ref);
    case _ =>
      var j := LatestAcceptWitness(es, i, es[i].frame.contract);
      assert Route(es, j).Some?;
      OfferedGrows(es, j, i + 1, es[j].frame.ref);
  }

  lemma {:induction false} OwnIsOffered(es: seq<Event>, n: nat, id: Text)
    requires n <= |es| && Routed(es, n)
    ensures Own(es, n, id) != [] <==> Offered(es, n, id)
  {
    if n > 0 {
      OwnIsOffered(es, n - 1, id);
      if Route(es, n - 1) == Some(id) { RouteIsOffered(es, n, n - 1); }
    }
  }

  // ---- The fold decides each contract as if it were alone ------------------------------------

  ghost predicate Good(c: Crypto, es: seq<Event>, n: nat)
    requires n <= |es|
  {
    DistinctLines(es, n) && Routed(es, n) && EachRunsAlone(c, es, n)
  }

  /** w is what the fold over n good events must have reached. */
  ghost predicate Mirrors(c: Crypto, es: seq<Event>, n: nat, w: World)
    requires n <= |es|
  {
    && (forall t :: t in w.seen <==> exists i: nat :: i < n && Line(es[i].frame) == t)
    && (forall id :: id in w.contracts <==> Offered(es, n, id))
    && (forall id | id in w.contracts :: Solo(c, Own(es, n, id)) == Some(w.contracts[id]))
    && (forall k :: (k in w.byId <==> LatestAccept(es, n, k).Some?) && (k in w.byId ==> LatestAccept(es, n, k) == Some(w.byId[k])))
  }

  lemma GoodShrinks(c: Crypto, es: seq<Event>, n: nat)
    requires n < |es| && Good(c, es, n + 1)
    ensures Good(c, es, n)
  {
    hide Step, Line, Solo, Offered;
    forall id | Offered(es, n, id)
      ensures Solo(c, Own(es, n, id)).Some?
    {
      OfferedGrows(es, n, n + 1, id);
      OwnIsOffered(es, n, id);
      SoloAppend(c, Own(es, n, id), es[n]);
    }
  }

  /** A frame delivered to contract id extends that contract's own run by one step. */
  lemma DeliverExtends(c: Crypto, es: seq<Event>, n: nat, w: World, id: Text)
    requires n < |es| && Good(c, es, n) && Mirrors(c, es, n, w) && Route(es, n) == Some(id)
    requires id in w.contracts
    ensures Own(es, n + 1, id) == Own(es, n, id) + [es[n]]
    ensures Solo(c, Own(es, n + 1, id)) ==
              match Step(c, w.contracts[id], es[n]) case Err(_) => None case Ok(s) => Some(s)
  {
    hide Step, Solo, Offered, Line;
    OwnIsOffered(es, n, id);
    SoloAppend(c, Own(es, n, id), es[n]);
  }

  /** One more routed event is good exactly when its own contract still runs alone. */
  lemma GoodGrows(c: Crypto, es: seq<Event>, n: nat, id: Text)
    requires n < |es| && Good(c, es, n) && Route(es, n) == Some(id)
    requires forall i: nat | i < n :: Line(es[i].frame) != Line(es[n].frame)
    ensures Good(c, es, n + 1) <==> Solo(c, Own(es, n + 1, id)).Some?
  {
    hide Step, Line, Solo, Offered, Route;
    RouteIsOffered'(es, n, id);
    forall other | other != id
      ensures Own(es, n + 1, other) == Own(es, n, other)
      ensures Offered(es, n + 1, other) <==> Offered(es, n, other)
    {
      OfferedStep(es, n, other);
      if Offered(es, n + 1, other) && !Offered(es, n, other) { OfferedRoute(es, n, other); }
    }
    assert Routed(es, n + 1) && DistinctLines(es, n + 1);
    if Solo(c, Own(es, n + 1, id)).Some? {
      var m := n + 1;
      forall other | Offered(es, m, other)
        ensures Solo(c, Own(es, m, other)).Some?
      {
        if other != id { assert Offered(es, n, other); }
      }
    }
  }

  lemma RouteIsOffered'(es: seq<Event>, n: nat, id: Text)
    requires n < |es| && Routed(es, n) && Route(es, n) == Some(id)
    ensures Offered(es, n + 1, id)
  {
    assert Routed(es, n + 1);
    RouteIsOffered(es, n + 1, n);
  }

  lemma OfferedStep(es: seq<Event>, n: nat, id: Text)
    requires n < |es|
    ensures Offered(es, n + 1, id) <==> Offered(es, n, id) || (es[n].frame.OfferFrame? && es[n].frame.offer.id == id)
  {
  }

  lemma OfferedRoute(es: seq<Event>, n: nat, id: Text)
    requires n < |es| && !Offered(es, n, id) && Offered(es, n + 1, id)
    ensures Route(es, n) == Some(id)
  {
  }

  lemma SeenStep(c: Crypto, es: seq<Event>, n: nat, w: World)
    requires n < |es| && Mirrors(c, es, n, w)
    ensures Line(es[n].frame) in w.seen <==> exists i: nat :: i < n && Line(es[i].frame) == Line(es[n].frame)
    ensures forall t :: t in w.seen + {Line(es[n].frame)} <==> exists i: nat :: i < n + 1 && Line(es[i].frame) == t
  {
    hide Line, Solo, Offered, LatestAccept;
    forall t | t in w.seen + {Line(es[n].frame)}
      ensures exists i: nat :: i < n + 1 && Line(es[i].frame) == t
    {
      if t in w.seen {
        var i: nat :| i < n && Line(es[i].frame) == t;
      }
    }
  }

  /** Contracts other than the one event n belongs to are untouched by it. */
  lemma OthersUntouched(c: Crypto, es: seq<Event>, n: nat, w: World, id: Text)
    requires n < |es| && Good(c, es, n) && Mirrors(c, es, n, w) && Route(es, n) == Some(id)
    ensures forall other | other != id :: (other in w.contracts <==> Offered(es, n + 1, other))
    ensures forall other | other != id && other in w.contracts :: Solo(c, Own(es, n + 1, other)) == Some(w.contracts[other])
  {
    hide Step, Line, Solo, Offered, Route, LatestAccept;
    forall other | other != id
      ensures Own(es, n + 1, other) == Own(es, n, other)
      ensures Offered(es, n + 1, other) <==> Offered(es, n, other)
    {
      OfferedStep(es, n, other);
      if Offered(es, n + 1, other) && !Offered(es, n, other) { OfferedRoute(es, n, other); }
    }
  }

  lemma OfferStep(c: Crypto, es: seq<Event>, n: nat, w: World)
    requires n < |es| && Good(c, es, n) && Mirrors(c, es, n, w)
    requires es[n].frame.OfferFrame? && Line(es[n].frame) !in w.seen
    ensures FoldStep(c, w, es[n]).Some? <==> Good(c, es, n + 1)
    ensures FoldStep(c, w, es[n]).Some? ==> Mirrors(c, es, n + 1, FoldStep(c, w, es[n]).value)
  {
    hide Step, Line, Offered;
    var o := es[n].frame.offer;
    SeenStep(c, es, n, w);
    GoodGrows(c, es, n, o.id);
    OthersUntouched(c, es, n, w, o.id);
    OwnIsOffered(es, n, o.id);
    OfferedStep(es, n, o.id);
    assert Own(es, n + 1, o.id) == Own(es, n, o.id) + [es[n]];
    if o.id in w.contracts {
      SoloAppend(c, Own(es, n, o.id), es[n]);
      OfferRefused(c, w.contracts[o.id], es[n]);
    } else {
      assert Own(es, n, o.id) == [];
      assert ([es[n]])[1..] == [];
      assert Solo(c, Own(es, n + 1, o.id)) == Some(Init(o));
    }
  }

  lemma OfferRefused(c: Crypto, s: State, e: Event)
    requires e.frame.OfferFrame?
    ensures Step(c, s, e).Err?
  {
  }

  lemma DeliverStep(c: Crypto, es: seq<Event>, n: nat, w: World, id: Text)
    requires n < |es| && Good(c, es, n) && Mirrors(c, es, n, w)
    requires !es[n].frame.OfferFrame? && Line(es[n].frame) !in w.seen
    requires Route(es, n) == Some(id) && id in w.contracts
    requires es[n].frame.Accept? ==> es[n].frame.ref == id
    ensures var v := w.(seen := w.seen + {Line(es[n].frame)});
            && (Deliver(c, v, id, es[n]).Some? <==> Good(c, es, n + 1))
            && (Deliver(c, v, id, es[n]).Some? ==> Mirrors(c, es, n + 1, Deliver(c, v, id, es[n]).value))
  {
    hide Step, Line, Offered, Solo, Route;
    SeenStep(c, es, n, w);
    GoodGrows(c, es, n, id);
    OthersUntouched(c, es, n, w, id);
    DeliverExtends(c, es, n, w, id);
    OfferedGrows(es, n, n + 1, id);
  }

  lemma FoldStepMirrors(c: Crypto, es: seq<Event>, n: nat, w: World)
    requires n < |es| && Good(c, es, n) && Mirrors(c, es, n, w)
    ensures FoldStep(c, w, es[n]).Some? <==> Good(c, es, n + 1)
    ensures FoldStep(c, w, es[n]).Some? ==> Mirrors(c, es, n + 1, FoldStep(c, w, es[n]).value)
  {
    hide Step, Line, Offered, Solo, Good, Own;
    if Line(es[n].frame) in w.seen {
      SeenMeansRepeated(c, es, n, w);
    } else {
      match es[n].frame
      case OfferFrame(_) => OfferStep(c, es, n, w);
      case Accept(_, ref, _, _, _) =>
        if ref in w.contracts { DeliverStep(c, es, n, w, ref); } else { NotRouted(c, es, n); }
      case _ =>
        var k := es[n].frame.contract;
        if k in w.byId {
          ByIdIsOffered(c, es, n, w, k);
          DeliverStep(c, es, n, w, w.byId[k]);
        } else {
          NotRouted(c, es, n);
        }
    }
  }

  lemma SeenMeansRepeated(c: Crypto, es: seq<Event>, n: nat, w: World)
    requires n < |es| && Mirrors(c, es, n, w) && Line(es[n].frame) in w.seen
    ensures !Good(c, es, n + 1)
  {
    hide Line, Solo, Offered;
    var i: nat :| i < n && Line(es[i].frame) == Line(es[n].frame);
  }

  lemma NotRouted(c: Crypto, es: seq<Event>, n: nat)
    requires n < |es| && Route(es, n) == None
    ensures !Good(c, es, n + 1)
  {
    hide Offered, LatestAccept;
    assert !Routed(es, n + 1);
  }

  lemma ByIdIsOffered(c: Crypto, es: seq<Event>, n: nat, w: World, k: Text)
    requires n <= |es| && Good(c, es, n) && Mirrors(c, es, n, w) && k in w.byId
    ensures w.byId[k] in w.contracts
  {
    hide Line, Solo, Offered;
    var j := LatestAcceptWitness(es, n, k);
    assert Route(es, j).Some?;
    OfferedGrows(es, j, n, es[j].frame.ref);
  }

  /** The fold accepts a stream exactly when its lines are distinct, every frame
      routes to an earlier offer or acceptance, and each contract's own frames
      run alone; and then it holds exactly the states of those solo runs. */
  lemma {:induction false} FoldMeaning(c: Crypto, es: seq<Event>, n: nat)
    requires n <= |es|
    ensures Fold(c, es, n).Some? <==> DistinctLines(es, n) && Routed(es, n) && EachRunsAlone(c, es, n)
    ensures Fold(c, es, n).Some? ==> Mirrors(c, es, n, Fold(c, es, n).value)
    decreases n
  {
    hide FoldStep, Line, Solo, Own, Route, LatestAccept;
    if n > 0 {
      FoldMeaning(c, es, n - 1);
      if Good(c, es, n) { GoodShrinks(c, es, n - 1); }
      if Good(c, es, n - 1) { FoldStepMirrors(c, es, n - 1, Fold(c, es, n - 1).value); }
    } else {
      NothingYet(c, es);
    }
  }

  lemma NothingYet(c: Crypto, es: seq<Event>)
    ensures Good(c, es, 0) && Mirrors(c, es, 0, EMPTY_WORLD)
  {
  }
}
