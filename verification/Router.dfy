/** internal/transport/manager.go: one cost model per (transport, peer, repo), and the choice of a transport. */
module Router {
  import opened Regression
  import opened CostModels

  /** Predictions this close, in nanoseconds, count as equal. */
  const BAND := 1000000

  function DefaultPriorFor(transport: string): (p: CostPrior)
    ensures p.weight > 0.0 && p.setupMS >= 0.0 && p.msPerByte >= 0.0 && p.halfLifeSec > 0.0
  {
    if transport == "syncthing" then CostPrior(1500.0, 0.00002, 4.0, 86400.0)
    else if "mutagen+" <= transport then CostPrior(100.0, 0.00005, 4.0, 86400.0)
    else if "git-ssh+" <= transport then CostPrior(200.0, 0.0002, 4.0, 86400.0)
    else CostPrior(500.0, 0.001, 4.0, 86400.0)
  }

  /** What the default priors say of transfers nobody has made yet: mutagen is expected before git over ssh, git before
      a transport without a prior of its own, and Syncthing before mutagen exactly above 46 2/3 million bytes. */
  lemma DefaultPriorsCompare(size: int, peer: string)
    requires size >= 0
    ensures
      var mutagen, git := DefaultPriorFor("mutagen+" + peer), DefaultPriorFor("git-ssh+" + peer);
      var sync, other := DefaultPriorFor("syncthing"), DefaultPriorFor("other");
      var x := size as real;
      && mutagen.setupMS + x * mutagen.msPerByte < git.setupMS + x * git.msPerByte
      && git.setupMS + x * git.msPerByte < other.setupMS + x * other.msPerByte
      && (sync.setupMS + x * sync.msPerByte < mutagen.setupMS + x * mutagen.msPerByte <==> 3 * size > 140000000)
  {
    assert "mutagen+" <= "mutagen+" + peer && "git-ssh+" <= "git-ssh+" + peer;
    assert !("mutagen+" <= "git-ssh+" + peer) by { assert ("git-ssh+" + peer)[0] == 'g'; }
    assert ("mutagen+" + peer)[0] == 'm' && ("git-ssh+" + peer)[0] == 'g';
  }

  // ---------------------------------------------------------------- the scan

  /** The scan's choice among predictions in list order. */
  function Winner(p: seq<int>): (w: nat)
    requires p != []
    ensures w < |p|
  {
    if |p| == 1 then 0
    else
      var best := Winner(p[..|p| - 1]);
      if p[|p| - 1] + BAND < p[best] then |p| - 1 else best
  }

  method Scan(p: seq<int>) returns (best: nat)
    requires p != []
    ensures best == Winner(p)
  {
    best := 0;
    for k := 1 to |p|
      invariant best == Winner(p[..k]) && best < k
    {
      assert p[..k + 1][..k] == p[..k];
      if p[k] + BAND < p[best] {
        best := k;
      }
    }
    assert p[..|p|] == p;
  }

  /** The winner is at most the band above the minimum, no later one beats it by more than the band, and every
      earlier one predicts strictly more. */
  lemma {:induction false} WinnerIsNearlyCheapest(p: seq<int>)
    requires p != []
    ensures forall j :: 0 <= j < |p| ==> p[Winner(p)] <= p[j] + BAND
    ensures forall j :: 0 <= j < Winner(p) ==> p[j] > p[Winner(p)]
  {
    if |p| > 1 {
      var t := p[..|p| - 1];
      WinnerIsNearlyCheapest(t);
      assert forall j :: 0 <= j < |t| ==> p[j] == t[j];
    }
  }

  /** The documented tie rule: nothing earlier within the band, nothing later better by more than the band. */
  ghost predicate ObeysTieRule(p: seq<int>, w: nat) {
    && w < |p|
    && (forall j :: 0 <= j < w ==> p[j] > p[w] + BAND)
    && forall j :: w < j < |p| ==> p[j] + BAND >= p[w]
  }

  /** The scan follows the documented tie rule exactly when some transport can. */
  lemma {:induction false} TieRuleHeldWheneverPossible(p: seq<int>, w: nat)
    requires ObeysTieRule(p, w)
    ensures Winner(p) == w
  {
    var t := p[..|p| - 1];
    if w == |p| - 1 {
      if |p| > 1 {
        assert p[Winner(t)] == t[Winner(t)];
      }
    } else {
      assert forall j :: 0 <= j < |t| ==> p[j] == t[j];
      TieRuleHeldWheneverPossible(t, w);
    }
  }

  lemma TieRuleExactly(p: seq<int>)
    requires p != []
    ensures ObeysTieRule(p, Winner(p)) <==> exists w :: ObeysTieRule(p, w)
  {
    if w :| ObeysTieRule(p, w) {
      TieRuleHeldWheneverPossible(p, w);
    }
  }

  /** Predictions of 10, 9.5 and 8.9 ms: the third wins although the second is earlier and within the band. */
  lemma TieRuleCanFail()
    ensures Winner([10000000, 9500000, 8900000]) == 2
    ensures forall w :: !ObeysTieRule([10000000, 9500000, 8900000], w)
  {}

  // ---------------------------------------------------------------- what was transferred

  datatype Key = Key(transport: string, peer: string, repo: string)

  datatype Transfer = Transfer(transport: string, peer: string, repo: string, size: nat, elapsed: nat)

  /** A transfer belongs to its repo's slot, and every transfer to the aggregate slot "". */
  predicate Belongs(t: Transfer, k: Key) {
    t.transport == k.transport && t.peer == k.peer && (k.repo == "" || t.repo == k.repo)
  }

  function Point(t: Transfer): (real, real) {
    (t.size as real, t.elapsed as real / 1000000.0)
  }

  /** The sizes and times of the transfers that belong to a slot, in order. */
  function Selected(log: seq<Transfer>, k: Key): seq<(real, real)> {
    if log == [] then []
    else
      var t := log[|log| - 1];
      Selected(log[..|log| - 1], k) + if Belongs(t, k) then [Point(t)] else []
  }

  /** One call of Record: which slot was fed which transfer. */
  datatype Delivery = Delivery(key: Key, transfer: Transfer)

  /** What a slot was fed, in order. */
  function Delivered(ds: seq<Delivery>, k: Key): seq<(real, real)> {
    if ds == [] then []
    else
      var d := ds[|ds| - 1];
      Delivered(ds[..|ds| - 1], k) + if d.key == k then [Point(d.transfer)] else []
  }

  /** RecordTransfer's calls: the repo's slot, then the aggregate unless that was the repo's slot. */
  function DeliveriesOf(t: Transfer): seq<Delivery> {
    [Delivery(Key(t.transport, t.peer, t.repo), t)]
    + if t.repo != "" then [Delivery(Key(t.transport, t.peer, ""), t)] else []
  }

  function Deliveries(log: seq<Transfer>): seq<Delivery> {
    if log == [] then [] else Deliveries(log[..|log| - 1]) + DeliveriesOf(log[|log| - 1])
  }

  lemma DeliveredOneMore(ds: seq<Delivery>, d: Delivery, k: Key)
    ensures Delivered(ds + [d], k) == Delivered(ds, k) + if d.key == k then [Point(d.transfer)] else []
  {
    assert (ds + [d])[..|ds|] == ds;
  }

  /** Every slot is fed exactly the transfers that belong to it, each once: the aggregate never counts one twice. */
  lemma {:induction false} SlotsHoldTheirTransfers(log: seq<Transfer>, k: Key)
    ensures Delivered(Deliveries(log), k) == Selected(log, k)
  {
    if log != [] {
      var t, before := log[|log| - 1], Deliveries(log[..|log| - 1]);
      SlotsHoldTheirTransfers(log[..|log| - 1], k);
      var own, total := Delivery(Key(t.transport, t.peer, t.repo), t), Delivery(Key(t.transport, t.peer, ""), t);
      DeliveredOneMore(before, own, k);
      DeliveredOneMore(before + [own], total, k);
      assert Deliveries(log) == if t.repo != "" then before + [own] + [total] else before + [own];
    }
  }

  /** One transfer more: it reaches its repo's own slot and the one slot of its transport and peer that has no repo, and
      no other; as its size in bytes and its time in milliseconds. */
  lemma SlotsGrow(log: seq<Transfer>, t: Transfer, k: Key)
    ensures Selected(log + [t], k) ==
            Selected(log, k)
            + if k in {Key(t.transport, t.peer, t.repo), Key(t.transport, t.peer, "")}
              then [(t.size as real, t.elapsed as real / 1000000.0)] else []
    ensures Selected([], k) == []
  {
    assert (log + [t])[..|log|] == log;
  }

  lemma DeliveriesOneMore(log: seq<Transfer>, t: Transfer)
    ensures Deliveries(log + [t]) == Deliveries(log) + DeliveriesOf(t)
  {
    assert (log + [t])[..|log|] == log;
  }

  function Points(h: seq<Sample>): seq<(real, real)> {
    seq(|h|, i requires 0 <= i < |h| => (h[i].x, h[i].y))
  }

  lemma PointsOneMore(h: seq<Sample>, s: Sample)
    ensures Points(h + [s]) == Points(h) + [(s.x, s.y)]
  {}

  datatype RouteError = NotDiscovered | Unreachable

  datatype Choice = Chosen(index: nat) | NoRoute(error: RouteError)

  /** What a model nothing was recorded for predicts. */
  function PriorPrediction(p: CostPrior, size: int): int {
    var ms := p.setupMS + size as real * p.msPerByte;
    ((if ms < 0.0 then 0.0 else ms) * 1000000.0).Floor
  }

  lemma UnusedModelPredictsPrior(m: CostModel)
    requires m.fitted == Line(m.prior.setupMS, m.prior.msPerByte) && m.prior.setupMS >= 0.0 && m.prior.msPerByte >= 0.0
    ensures forall size :: m.Predict(size) == PriorPrediction(m.prior, size)
  {}

  /** Manager, its transports by name in list order; discovery results are the routes. */
  class Manager {
    const transports: seq<string>
    const exp2: real -> real
    const priors: map<string, CostPrior>
    var routes: map<string, map<string, bool>>
    var models: map<Key, CostModel>
    ghost var deliveries: seq<Delivery>
    ghost var log: seq<Transfer>

    /** Every slot's model has recorded what the slot was fed. */
    ghost predicate Consistent()
      reads this`models, this`deliveries, models.Values
    {
      && IsDecay(exp2)
      && (forall t :: t in priors ==> priors[t] == DefaultPriorFor(t))
      && (forall k :: k in models ==> Tracks(models[k], k))
      && (forall j, k :: j in models && k in models && j != k ==> models[j] != models[k])
      && (forall k :: k !in models ==> Delivered(deliveries, k) == [])
    }

    ghost predicate Tracks(m: CostModel, k: Key)
      reads this`deliveries, m
    {
      && m.Valid() && m.exp2 == exp2 && m.prior == DefaultPriorFor(k.transport)
      && Points(m.history) == Delivered(deliveries, k)
    }

    ghost predicate Valid()
      reads this, models.Values
    {
      Consistent() && deliveries == Deliveries(log)
    }

    constructor (transports: seq<string>, exp2: real -> real)
      requires IsDecay(exp2)
      ensures Valid() && log == [] && routes == map[] && models == map[]
      ensures this.transports == transports && this.exp2 == exp2
    {
      this.transports, this.exp2 := transports, exp2;
      priors := map t | t in transports :: DefaultPriorFor(t);
      routes, models, deliveries, log := map[], map[], [], [];
    }

    /** The duration predicted for a payload: the slot's model, or the prior where there is none yet. */
    function Prediction(k: Key, size: int): int
      reads this`models, models.Values
    {
      if k in models then models[k].Predict(size) else PriorPrediction(DefaultPriorFor(k.transport), size)
    }

    /** The model of a slot, created on first use. */
    method ModelFor(k: Key, now: real) returns (m: CostModel)
      requires Consistent()
      modifies this`models
      ensures Consistent() && k in models && models[k] == m
      ensures forall j :: j in old(models) ==> j in models && models[j] == old(models[j])
      ensures models.Keys == old(models.Keys) + {k}
      ensures k !in old(models) ==> fresh(m)
      ensures forall j, size :: Prediction(j, size) == old(Prediction(j, size))
    {
      hide IsDecay, CostModel.Valid, Delivered;
      if k in models {
        return models[k];
      }
      var prior := if k.transport in priors then priors[k.transport] else CostPrior(0.0, 0.0, 0.0, 0.0);
      if prior.weight == 0.0 {
        prior := DefaultPriorFor(k.transport);
      }
      m := new CostModel(prior, exp2, now);
      UnusedModelPredictsPrior(m);
      hide DefaultPriorFor, PriorPrediction;
      models := models[k := m];
    }

    /** Feeds one transfer to one slot. */
    method Deliver(k: Key, ghost repo: string, size: int, elapsed: int, now: real)
      requires Consistent()
      modifies this`models, this`deliveries, models.Values
      ensures Consistent()
      ensures forall m <- models.Values :: m in old(models.Values) || fresh(m)
      ensures deliveries == old(deliveries) +
        if size < 0 || elapsed < 0 then [] else [Delivery(k, Transfer(k.transport, k.peer, repo, size, elapsed))]
    {
      hide *;
      var m := ModelFor(k, now);
      Feed(k, m, repo, size, elapsed, now);
    }

    method Feed(k: Key, m: CostModel, ghost repo: string, size: int, elapsed: int, now: real)
      requires Consistent() && k in models && models[k] == m
      modifies this`deliveries, m
      ensures Consistent()
      ensures deliveries == old(deliveries) +
        if size < 0 || elapsed < 0 then [] else [Delivery(k, Transfer(k.transport, k.peer, repo, size, elapsed))]
    {
      hide IsDecay, CostModel.Valid, CostModel.Elapsed, Delivered, DefaultPriorFor;
      ghost var h := m.history;
      m.Record(size, elapsed, now);
      if size >= 0 && elapsed >= 0 {
        PointsOneMore(h, m.history[|h|]);
        Note(Delivery(k, Transfer(k.transport, k.peer, repo, size, elapsed)));
      }
    }

    /** Everything but this slot's model is as it was, and that model has recorded one more transfer. */
    ghost predicate OneAhead(d: Delivery)
      reads this, models.Values
    {
      && IsDecay(exp2)
      && (forall t :: t in priors ==> priors[t] == DefaultPriorFor(t))
      && (forall k :: k in models && k != d.key ==> Tracks(models[k], k))
      && (forall j, k :: j in models && k in models && j != k ==> models[j] != models[k])
      && (forall k :: k !in models ==> Delivered(deliveries, k) == [])
      && d.key in models
      && var m := models[d.key];
      && m.Valid() && m.exp2 == exp2 && m.prior == DefaultPriorFor(d.key.transport)
      && Points(m.history) == Delivered(deliveries, d.key) + [Point(d.transfer)]
    }

    ghost method Note(d: Delivery)
      requires OneAhead(d)
      modifies this`deliveries
      ensures Consistent() && deliveries == old(deliveries) + [d]
    {
      hide IsDecay, CostModel.Valid, Delivered;
      forall j ensures Delivered(deliveries + [d], j) ==
                       Delivered(deliveries, j) + if j == d.key then [Point(d.transfer)] else []
      {
        DeliveredOneMore(deliveries, d, j);
      }
      deliveries := deliveries + [d];
    }

    /** Feeds one transfer to its repo's slot and to the aggregate; calls with a negative size or time are dropped. */
    method RecordTransfer(transport: string, peer: string, repo: string, size: int, elapsed: int, now: real)
      requires Valid()
      modifies this`models, this`deliveries, this`log, models.Values
      ensures Valid()
      ensures log == old(log) + if size < 0 || elapsed < 0 then [] else [Transfer(transport, peer, repo, size, elapsed)]
      ensures forall k :: k in models ==> Points(models[k].history) == Selected(log, k)
      ensures forall k :: k !in models ==> Selected(log, k) == []
    {
      hide CostModel.Valid, Manager.Consistent, Manager.Tracks, Delivered, Deliveries, Selected;
      Deliver(Key(transport, peer, repo), repo, size, elapsed, now);
      if repo != "" {
        Deliver(Key(transport, peer, ""), repo, size, elapsed, now);
      }
      if size >= 0 && elapsed >= 0 {
        ghost var t := Transfer(transport, peer, repo, size, elapsed);
        DeliveriesOneMore(log, t);
        assert deliveries == Deliveries(log) + DeliveriesOf(t);
        log := log + [t];
      }
      SlotsMatchTheLog();
    }

    /** What Valid says of every slot in terms of the transfers. */
    lemma SlotsMatchTheLog()
      requires Valid()
      ensures forall k :: k in models ==> Points(models[k].history) == Selected(log, k)
      ensures forall k :: k !in models ==> Selected(log, k) == []
    {
      hide CostModel.Valid, Deliveries, Delivered, Selected;
      forall k ensures Delivered(deliveries, k) == Selected(log, k) {
        SlotsHoldTheirTransfers(log, k);
      }
    }

    /** The first `n` transports that were last found reachable, by index. */
    function Reachable(peer: string, n: nat): (c: seq<nat>)
      requires peer in routes && n <= |transports|
      reads this`routes
      ensures forall i: nat :: i in c <==> i < n && IsReachable(peer, i)
      ensures forall a :: 0 <= a < |c| ==> c[a] < n
      ensures forall a, b :: 0 <= a < b < |c| ==> c[a] < c[b]
    {
      if n == 0 then []
      else Reachable(peer, n - 1) + if IsReachable(peer, n - 1) then [n - 1] else []
    }

    predicate IsReachable(peer: string, i: nat)
      reads this`routes
    {
      && i < |transports| && peer in routes
      && transports[i] in routes[peer] && routes[peer][transports[i]]
    }

    /** What the transport at an index is predicted to take for one repo's change. */
    function Cost(i: nat, peer: string, repo: string, size: int): int
      requires i < |transports|
      reads this`models, models.Values
    {
      Prediction(Key(transports[i], peer, repo), size)
    }

    function Costs(c: seq<nat>, peer: string, repo: string, size: int): (p: seq<int>)
      requires forall a :: 0 <= a < |c| ==> c[a] < |transports|
      reads this, models.Values
      ensures |p| == |c| && forall a :: 0 <= a < |c| ==> p[a] == Cost(c[a], peer, repo, size)
    {
      seq(|c|, a requires 0 <= a < |c| reads this, models.Values => Cost(c[a], peer, repo, size))
    }

    /** The transport chosen is reachable, at most the band above the cheapest, and strictly cheaper than any before. */
    ghost predicate IsGoodChoice(w: nat, peer: string, repo: string, size: int)
      reads this, models.Values
    {
      && IsReachable(peer, w)
      && (forall i :: 0 <= i < |transports| && IsReachable(peer, i) ==>
            Cost(w, peer, repo, size) <= Cost(i, peer, repo, size) + BAND)
      && forall i :: 0 <= i < w && IsReachable(peer, i) ==> Cost(i, peer, repo, size) > Cost(w, peer, repo, size)
    }

    lemma WinnerIsGoodChoice(peer: string, repo: string, size: int)
      requires peer in routes && Reachable(peer, |transports|) != []
      ensures
        var c := Reachable(peer, |transports|);
        IsGoodChoice(c[Winner(Costs(c, peer, repo, size))], peer, repo, size)
    {
      hide Reachable, Winner, Cost, Costs;
      var c := Reachable(peer, |transports|);
      var p := Costs(c, peer, repo, size);
      WinnerIsNearlyCheapest(p);
      forall i | 0 <= i < |transports| && IsReachable(peer, i)
        ensures Cost(c[Winner(p)], peer, repo, size) <= Cost(i, peer, repo, size) + BAND
        ensures i < c[Winner(p)] ==> Cost(i, peer, repo, size) > Cost(c[Winner(p)], peer, repo, size)
      {
        assert i in c;
        var a :| 0 <= a < |c| && c[a] == i;
        assert p[a] == Cost(i, peer, repo, size);
      }
      assert c[Winner(p)] in c;
    }

    /** Route: the scan over the reachable transports, in list order. */
    method Route(peer: string, repo: string, size: int, now: real) returns (r: Choice)
      requires Valid()
      modifies this`models
      ensures Valid() && forall j, z :: Prediction(j, z) == old(Prediction(j, z))
      ensures r == NoRoute(NotDiscovered) <==> peer !in routes
      ensures r == NoRoute(Unreachable) <==>
                peer in routes && forall i :: 0 <= i < |transports| ==> !IsReachable(peer, i)
      ensures r.Chosen? ==>
        var c := Reachable(peer, |transports|);
        && c != [] && r.index == c[Winner(Costs(c, peer, repo, size))]
        && IsGoodChoice(r.index, peer, repo, size)
    {
      hide Manager.Valid, Manager.Prediction, Manager.IsReachable, Manager.Reachable, Manager.Costs;
      if peer !in routes {
        return NoRoute(NotDiscovered);
      }
      var candidates, predictions := Candidates(peer, repo, size, now);
      if candidates == [] {
        assert forall i :: 0 <= i < |transports| ==> i !in candidates;
        return NoRoute(Unreachable);
      }
      var best := Scan(predictions);
      WinnerIsGoodChoice(peer, repo, size);
      return Chosen(candidates[best]);
    }

    /** The reachable transports with their predictions. */
    method Candidates(peer: string, repo: string, size: int, now: real) returns (c: seq<nat>, p: seq<int>)
      requires Valid() && peer in routes
      modifies this`models
      ensures Valid() && forall j, z :: Prediction(j, z) == old(Prediction(j, z))
      ensures c == Reachable(peer, |transports|) && p == Costs(c, peer, repo, size)
    {
      hide CostModel.Valid, CostModel.Predict, Manager.Consistent, Deliveries, DefaultPriorFor, PriorPrediction;
      c, p := [], [];
      for i := 0 to |transports|
        invariant Valid() && forall j, z :: Prediction(j, z) == old(Prediction(j, z))
        invariant c == Reachable(peer, i) && |p| == |c|
        invariant forall a :: 0 <= a < |c| ==> p[a] == Cost(c[a], peer, repo, size)
      {
        if transports[i] in routes[peer] && routes[peer][transports[i]] {
          var model := ModelFor(Key(transports[i], peer, repo), now);
          c, p := c + [i], p + [model.Predict(size)];
        }
      }
    }
  }
}
