/**
  Synthetic incidents: each one is placed either at a configured hotspot
  (weighted by the hotspot's weight) or at a node of the city catalog picked
  uniformly, stamped with a minute in the horizon and a severity. The numpy
  generator is the `Rng` stream of draws; every incident takes four of them,
  in the order location branch, location pick, minute, severity.
 */
module IncidentGenerator {
  import opened Wrappers
  import opened PyValues
  import opened Draws
  import opened Sequences

  /** A location as the generator receives it: a hotspot entry or a catalog node, as a `dict`. */
  type Location = map<string, Json>

  /** `Incident`: one synthetic incident record. */
  datatype Incident = Incident(
    incidentId: int,
    tsMin: int,
    hotspotId: Option<string>,
    regionId: Json,
    nodeId: int,
    lat: real,
    lon: real,
    severity: string)

  /** Why a call raises. */
  datatype GenError =
    | BadFraction                  // ValueError: hotspot_fraction must be in [0, 1]
    | EmptyRange(high: int)        // `integers(0, high)` with `high <= 0`
    | BadWeight(index: nat)        // `float(h.get("weight", 1.0))` raises for hotspot `index`
    | MissingKey(key: string)      // `loc[key]` raises KeyError
    | NotConvertible(key: string)  // `int(loc[key])` or `float(loc[key])` raises

  const SEVERITY_LABELS: seq<string> := ["low", "medium", "high"]
  const SEVERITY_PROBS: seq<real> := [0.60, 0.30, 0.10]

  /** The lower bound `np.clip` puts on hotspot weights. */
  const MIN_WEIGHT: real := 0.000001

  /** The severity whose band of [0, 1) holds `u`: below 0.6, below 0.9, the rest. */
  function SeverityBand(u: real): string {
    if u < 0.6 then "low" else if u < 0.9 then "medium" else "high"
  }

  /** `sample_severity`: one draw, placed over the cumulative probabilities 0.6, 0.9, 1.0. */
  function SampleSeverity(rng: Rng): (r: (string, Rng))
    ensures r.0 in SEVERITY_LABELS && r.1 == Skip(rng, 1)
    ensures r.0 == SeverityBand(rng.source(rng.pos))
  {
    SeverityCumulative();
    var (i, next) := Choice(rng, SEVERITY_PROBS);
    assert i == 0 || i == 1 || i == 2;
    (SEVERITY_LABELS[i], next)
  }

  /** The cumulative severity probabilities are 0.6, 0.9 and 1.0. */
  lemma SeverityCumulative()
    ensures Positive(SEVERITY_PROBS)
    ensures Sum(SEVERITY_PROBS[..0]) == 0.0 && Sum(SEVERITY_PROBS[..1]) == 0.6
    ensures Sum(SEVERITY_PROBS[..2]) == 0.9 && Sum(SEVERITY_PROBS[..3]) == Sum(SEVERITY_PROBS) == 1.0
  {
    var ws := SEVERITY_PROBS;
    assert ws[..0] == [];
    assert ws[..1][..0] == [];
    assert ws[..2][..1] == ws[..1];
    assert ws[..3][..2] == ws[..2];
    assert ws[..3] == ws;
  }

  /** `sample_time_minute`: one draw turned into a minute in [0, horizon). */
  function SampleTimeMinute(rng: Rng, horizon: int): (r: Result<(int, Rng), GenError>)
    ensures r.Err? <==> horizon <= 0
    ensures r.Err? ==> r.error == EmptyRange(horizon)
    ensures r.Ok? ==> 0 <= r.value.0 < horizon && r.value.1 == Skip(rng, 1)
    ensures r.Ok? ==> horizon > 0 && r.value.0 == Index(rng.source(rng.pos), horizon)
  {
    match Integers(rng, horizon)
    case None => Err(EmptyRange(horizon))
    case Some((t, next)) => Ok((t, next))
  }

  /** `float(h.get("weight", 1.0))`, raised to at least `MIN_WEIGHT` as `np.clip` does. */
  function Weight(py: Builtins, h: Location): (r: Option<real>)
    ensures r.None? <==> PyFloat(py, Get(h, "weight", Float(1.0))).None?
    ensures "weight" !in h ==> r == Some(1.0)
    ensures r.Some? ==> var w := PyFloat(py, Get(h, "weight", Float(1.0))).value;
      && r.value >= MIN_WEIGHT && r.value >= w
      && (r.value == w || r.value == MIN_WEIGHT)
  {
    match PyFloat(py, Get(h, "weight", Float(1.0)))
    case None => None
    case Some(w) => Some(if w < MIN_WEIGHT then MIN_WEIGHT else w)
  }

  /** The clipped weights of hotspots `i..`, or the first hotspot whose weight `float()` rejects. */
  function WeightsFrom(py: Builtins, hotspots: seq<Location>, i: nat): (r: Result<seq<real>, GenError>)
    requires i <= |hotspots|
    ensures r.Ok? <==> forall j | i <= j < |hotspots| :: Weight(py, hotspots[j]).Some?
    ensures r.Ok? ==> |r.value| == |hotspots| - i && Positive(r.value)
    ensures r.Ok? ==> forall j | 0 <= j < |r.value| :: Some(r.value[j]) == Weight(py, hotspots[i + j])
    ensures r.Err? ==> exists j | i <= j < |hotspots| ::
      (r.error == BadWeight(j) && Weight(py, hotspots[j]).None?
       && forall l | i <= l < j :: Weight(py, hotspots[l]).Some?)
    decreases |hotspots| - i
  {
    if i == |hotspots| then Ok([])
    else match Weight(py, hotspots[i])
      case None => Err(BadWeight(i))
      case Some(w) =>
        match WeightsFrom(py, hotspots, i + 1)
        case Err(e) => Err(e)
        case Ok(ws) => Ok([w] + ws)
  }

  /** The location branch: the first draw is below the fraction and there are hotspots. */
  predicate UsesHotspot(rng: Rng, hotspots: seq<Location>, frac: real) {
    rng.source(rng.pos) < frac && |hotspots| > 0
  }

  /**
    What `choose_location` returns once its two draws are known: `u` decides the
    branch, and `v` picks the hotspot (by weight) or the node (uniformly).
   */
  function Place(py: Builtins, hotspots: seq<Location>, nodes: seq<Location>, frac: real, u: Unit, v: Unit)
    : Result<Location, GenError>
  {
    if u < frac && |hotspots| > 0 then
      match WeightsFrom(py, hotspots, 0)
      case Err(e) => Err(e)
      case Ok(ws) => Ok(hotspots[Pick(Normalized(ws), v)])
    else if |nodes| == 0 then Err(EmptyRange(0))
    else Ok(nodes[Index(v, |nodes|)])
  }

  /**
    `choose_location`: reject a fraction outside [0, 1]; then one draw decides
    the branch and a second picks the hotspot (by weight) or the node (uniformly).
   */
  function ChooseLocation(py: Builtins, rng: Rng, hotspots: seq<Location>, nodes: seq<Location>, frac: real)
    : (r: Result<(Location, Rng), GenError>)
    ensures !(0.0 <= frac <= 1.0) <==> r.Err? && r.error == BadFraction
    ensures r.Ok? ==> r.value.1 == Skip(rng, 2)
    ensures r.Ok? && UsesHotspot(rng, hotspots, frac) ==> r.value.0 in hotspots
    ensures r.Ok? && !UsesHotspot(rng, hotspots, frac) ==> r.value.0 in nodes
    ensures 0.0 <= frac <= 1.0 && !UsesHotspot(rng, hotspots, frac)
      ==> (r.Err? <==> |nodes| == 0) && (r.Err? ==> r.error == EmptyRange(0))
    ensures 0.0 <= frac <= 1.0 && UsesHotspot(rng, hotspots, frac)
      ==> (r.Err? <==> WeightsFrom(py, hotspots, 0).Err?)
  {
    if !(0.0 <= frac <= 1.0) then Err(BadFraction)
    else
      var (u, afterBranch) := Random(rng);
      var (v, next) := Random(afterBranch);
      match Place(py, hotspots, nodes, frac, u, v)
      case Err(e) => Err(e)
      case Ok(loc) => Ok((loc, next))
  }

  /**
    Which location the second draw picks: on the hotspot branch the hotspot whose
    band of the normalised weights holds it, otherwise the node of its cell, each
    node with an equal share of [0, 1).
   */
  lemma ChooseLocationPick(py: Builtins, rng: Rng, hotspots: seq<Location>, nodes: seq<Location>, frac: real)
    requires ChooseLocation(py, rng, hotspots, nodes, frac).Ok?
    ensures var loc := ChooseLocation(py, rng, hotspots, nodes, frac).value.0;
      && (!UsesHotspot(rng, hotspots, frac) ==>
            |nodes| > 0 && loc == nodes[Index(rng.source(rng.pos + 1), |nodes|)])
      && (UsesHotspot(rng, hotspots, frac) ==>
            WeightsFrom(py, hotspots, 0).Ok?
            && loc == hotspots[Pick(Normalized(WeightsFrom(py, hotspots, 0).value), rng.source(rng.pos + 1))])
  {
    var v := rng.source(rng.pos + 1);
    assert Random(Skip(rng, 1)).0 == v;
    assert ChooseLocation(py, rng, hotspots, nodes, frac).value.0
      == Place(py, hotspots, nodes, frac, rng.source(rng.pos), v).value;
  }

  /** `int(loc[key])`, with the KeyError and the conversion error told apart. */
  function IntField(py: Builtins, loc: Location, key: string): (r: Result<int, GenError>)
    ensures key !in loc <==> r.Err? && r.error == MissingKey(key)
    ensures r.Ok? <==> key in loc && PyInt(py, loc[key]).Some?
    ensures r.Ok? ==> r.value == PyInt(py, loc[key]).value
  {
    if key !in loc then Err(MissingKey(key))
    else match PyInt(py, loc[key])
      case None => Err(NotConvertible(key))
      case Some(v) => Ok(v)
  }

  /** `float(loc[key])`, with the KeyError and the conversion error told apart. */
  function RealField(py: Builtins, loc: Location, key: string): (r: Result<real, GenError>)
    ensures key !in loc <==> r.Err? && r.error == MissingKey(key)
    ensures r.Ok? <==> key in loc && PyFloat(py, loc[key]).Some?
    ensures r.Ok? ==> r.value == PyFloat(py, loc[key]).value
  {
    if key !in loc then Err(MissingKey(key))
    else match PyFloat(py, loc[key])
      case None => Err(NotConvertible(key))
      case Some(v) => Ok(v)
  }

  /** `str(loc.get("id"))` when the location has an id that is not `None`, else `None`. */
  function HotspotIdOf(py: Builtins, loc: Location): Option<string> {
    if Get(loc, "id", Null) != Null then Some(PyStr(py, loc["id"])) else None
  }

  /** A location the record can be built from: `node_id`, `lat` and `lon` exist and convert. */
  predicate Buildable(py: Builtins, loc: Location) {
    IntField(py, loc, "node_id").Ok? && RealField(py, loc, "lat").Ok? && RealField(py, loc, "lon").Ok?
  }

  /** The record takes its place fields from `loc`. */
  predicate CopiedFrom(py: Builtins, inc: Incident, loc: Location)
    requires Buildable(py, loc)
  {
    && inc.hotspotId == HotspotIdOf(py, loc)
    && inc.regionId == Get(loc, "region_id", Null)
    && inc.nodeId == IntField(py, loc, "node_id").value
    && inc.lat == RealField(py, loc, "lat").value
    && inc.lon == RealField(py, loc, "lon").value
  }

  /** The `Incident(...)` constructor call; its arguments are evaluated left to right. */
  function MakeIncident(py: Builtins, id: int, ts: int, loc: Location, sev: string): (r: Result<Incident, GenError>)
    ensures r.Ok? <==> Buildable(py, loc)
    ensures r.Ok? ==>
      (CopiedFrom(py, r.value, loc) && r.value.incidentId == id && r.value.tsMin == ts && r.value.severity == sev)
    ensures r.Err? && "node_id" !in loc ==> r.error == MissingKey("node_id")
  {
    match IntField(py, loc, "node_id")
    case Err(e) => Err(e)
    case Ok(node) =>
      match RealField(py, loc, "lat")
      case Err(e) => Err(e)
      case Ok(lat) =>
        match RealField(py, loc, "lon")
        case Err(e) => Err(e)
        case Ok(lon) =>
          Ok(Incident(id, ts, HotspotIdOf(py, loc), Get(loc, "region_id", Null), node, lat, lon, sev))
  }

  /** One pass of the loop in `generate_incidents`: location, then minute, then severity, then the record. */
  function NextIncident(py: Builtins, id: int, rng: Rng, hotspots: seq<Location>, nodes: seq<Location>,
                        horizon: int, frac: real): (r: Result<(Incident, Rng), GenError>)
    ensures r.Ok? ==> r.value.1 == Skip(rng, 4)
    ensures r.Ok? ==> var inc := r.value.0;
      && inc.incidentId == id
      && 0 <= inc.tsMin < horizon
      && inc.severity in SEVERITY_LABELS
  {
    match ChooseLocation(py, rng, hotspots, nodes, frac)
    case Err(e) => Err(e)
    case Ok((loc, r1)) =>
      match SampleTimeMinute(r1, horizon)
      case Err(e) => Err(e)
      case Ok((ts, r2)) =>
        var (sev, r3) := SampleSeverity(r2);
        match MakeIncident(py, id, ts, loc, sev)
        case Err(e) => Err(e)
        case Ok(inc) => Ok((inc, r3))
  }

  /**
    The draws of one pass are taken in a fixed order: the third sets the
    minute and the fourth the severity, after the two of `choose_location`.
   */
  lemma NextIncidentDraws(py: Builtins, id: int, rng: Rng, hotspots: seq<Location>, nodes: seq<Location>,
                          horizon: int, frac: real)
    requires NextIncident(py, id, rng, hotspots, nodes, horizon, frac).Ok?
    ensures var inc := NextIncident(py, id, rng, hotspots, nodes, horizon, frac).value.0;
      && horizon > 0
      && inc.tsMin == Index(rng.source(rng.pos + 2), horizon)
      && inc.severity == SeverityBand(rng.source(rng.pos + 3))
  {
    var c := ChooseLocation(py, rng, hotspots, nodes, frac);
    assert c.Ok?;
    var r1 := c.value.1;
    assert r1 == Skip(rng, 2);
    var t := SampleTimeMinute(r1, horizon);
    assert t.Ok?;
    var r2 := t.value.1;
    assert r2 == Skip(rng, 3);
    var inc := NextIncident(py, id, rng, hotspots, nodes, horizon, frac).value.0;
    assert inc.tsMin == t.value.0;
    assert inc.severity == SampleSeverity(r2).0;
  }

  /** A record the loop builds takes its place fields from the location `choose_location` returned. */
  lemma NextIncidentPlace(py: Builtins, id: int, rng: Rng, hotspots: seq<Location>, nodes: seq<Location>,
                          horizon: int, frac: real)
    requires NextIncident(py, id, rng, hotspots, nodes, horizon, frac).Ok?
    ensures var c := ChooseLocation(py, rng, hotspots, nodes, frac);
      && c.Ok? && Buildable(py, c.value.0)
      && CopiedFrom(py, NextIncident(py, id, rng, hotspots, nodes, horizon, frac).value.0, c.value.0)
  {
  }

  /**
    When a pass raises: exactly when `choose_location` raises, the horizon is
    empty, or the location it chose lacks or cannot convert `node_id`, `lat` or
    `lon`. Locations that are not drawn play no part.
   */
  lemma NextIncidentRaises(py: Builtins, id: int, rng: Rng, hotspots: seq<Location>, nodes: seq<Location>,
                           horizon: int, frac: real)
    ensures var c := ChooseLocation(py, rng, hotspots, nodes, frac);
      var r := NextIncident(py, id, rng, hotspots, nodes, horizon, frac);
      && (r.Ok? <==> c.Ok? && horizon > 0 && Buildable(py, c.value.0))
      && (c.Err? ==> r == Err(c.error))
      && (c.Ok? && horizon <= 0 ==> r == Err(EmptyRange(horizon)))
      && (c.Ok? && horizon > 0 && "node_id" !in c.value.0 ==> r == Err(MissingKey("node_id")))
  {
  }

  /**
    Pass `j` of the loop, which builds the record with id `j + 1`. The passes
    before it have each taken four draws, so it starts at draw `4 * j`.
   */
  function Pass(py: Builtins, hotspots: seq<Location>, nodes: seq<Location>, horizon: int, frac: real,
                stream: nat -> Unit, j: nat): Result<Incident, GenError>
  {
    match NextIncident(py, j + 1, Skip(Rng(stream, 0), 4 * j), hotspots, nodes, horizon, frac)
    case Err(e) => Err(e)
    case Ok((x, _)) => Ok(x)
  }

  /** The outcomes of the passes, each on its own. */
  function Passes(py: Builtins, hotspots: seq<Location>, nodes: seq<Location>, horizon: int, frac: real,
                  stream: nat -> Unit): nat -> Result<Incident, GenError>
  {
    (j: nat) => Pass(py, hotspots, nodes, horizon, frac, stream, j)
  }

  /**
    `generate_incidents` on the generator seeded to produce `stream`: the records
    of the `n` passes, or the exception of the first pass that raises. `range(n)`
    is empty for `n <= 0`.
   */
  function Generate(py: Builtins, n: int, hotspots: seq<Location>, nodes: seq<Location>, horizon: int,
                    stream: nat -> Unit, frac: real): Result<seq<Incident>, GenError>
  {
    if n <= 0 then Ok([]) else Collect(Tabulate(Passes(py, hotspots, nodes, horizon, frac, stream), n))
  }

  /** Pass `k` succeeds after `k` passes that did: the first `k + 1` passes collect its record too. */
  lemma PassesGrow(py: Builtins, hotspots: seq<Location>, nodes: seq<Location>, horizon: int, frac: real,
                   stream: nat -> Unit, k: nat, xs: seq<Incident>, next: Result<(Incident, Rng), GenError>)
    requires Collect(Tabulate(Passes(py, hotspots, nodes, horizon, frac, stream), k)) == Ok(xs)
    requires next == NextIncident(py, k + 1, Skip(Rng(stream, 0), 4 * k), hotspots, nodes, horizon, frac)
    requires next.Ok?
    ensures Collect(Tabulate(Passes(py, hotspots, nodes, horizon, frac, stream), k + 1)) == Ok(xs + [next.value.0])
  {
    var f := Passes(py, hotspots, nodes, horizon, frac, stream);
    assert f(k) == Ok(next.value.0);
    TabulateSnoc(f, k);
    CollectSnoc(Tabulate(f, k), xs, next.value.0);
  }

  /** Pass `k` raises after `k` passes that did not: the call raises the same error. */
  lemma GenerateFails(py: Builtins, n: int, hotspots: seq<Location>, nodes: seq<Location>, horizon: int,
                      stream: nat -> Unit, frac: real, k: nat, next: Result<(Incident, Rng), GenError>)
    requires k < n
    requires Collect(Tabulate(Passes(py, hotspots, nodes, horizon, frac, stream), k)).Ok?
    requires next == NextIncident(py, k + 1, Skip(Rng(stream, 0), 4 * k), hotspots, nodes, horizon, frac)
    requires next.Err?
    ensures Generate(py, n, hotspots, nodes, horizon, stream, frac) == Err(next.error)
  {
    var rs := Tabulate(Passes(py, hotspots, nodes, horizon, frac, stream), n);
    assert forall l | 0 <= l < k :: rs[l] == Tabulate(Passes(py, hotspots, nodes, horizon, frac, stream), k)[l];
    CollectFirstErr(rs, k);
  }

  /** All passes have run: the call returns what they collected. */
  lemma GenerateDone(py: Builtins, n: int, hotspots: seq<Location>, nodes: seq<Location>, horizon: int,
                     stream: nat -> Unit, frac: real, k: nat, xs: seq<Incident>)
    requires k == if n > 0 then n else 0
    requires Collect(Tabulate(Passes(py, hotspots, nodes, horizon, frac, stream), k)) == Ok(xs)
    ensures Generate(py, n, hotspots, nodes, horizon, stream, frac) == Ok(xs)
  {
  }

  /**
    `generate_incidents(n, hotspots, all_nodes, horizon_min, seed, hotspot_fraction)`,
    where `stream` is what `default_rng(seed)` produces.
   */
  method GenerateIncidents(py: Builtins, n: int, hotspots: seq<Location>, nodes: seq<Location>, horizon: int,
                           stream: nat -> Unit, frac: real) returns (r: Result<seq<Incident>, GenError>)
    ensures r == Generate(py, n, hotspots, nodes, horizon, stream, frac)
  {
    var rng := Rng(stream, 0);
    var incidents: seq<Incident> := [];
    var i := 0;
    while i < n
      invariant 0 <= i <= if n > 0 then n else 0
      invariant rng == Skip(Rng(stream, 0), 4 * i)
      invariant Collect(Tabulate(Passes(py, hotspots, nodes, horizon, frac, stream), i)) == Ok(incidents)
      decreases n - i
    {
      var next := NextIncident(py, i + 1, rng, hotspots, nodes, horizon, frac);
      if next.Err? {
        GenerateFails(py, n, hotspots, nodes, horizon, stream, frac, i, next);
        return Err(next.error);
      }
      PassesGrow(py, hotspots, nodes, horizon, frac, stream, i, incidents, next);
      incidents := incidents + [next.value.0];
      rng := next.value.1;
      i := i + 1;
    }
    GenerateDone(py, n, hotspots, nodes, horizon, stream, frac, i, incidents);
    return Ok(incidents);
  }
}

/** What `generate_incidents` and its samplers promise, proved about the model. */
module IncidentGeneratorProperties {
  import opened Wrappers
  import opened PyValues
  import opened Draws
  import opened Sequences
  import opened IncidentGenerator

  /**
    A successful call returns `max(n, 0)` records; record `j` is the one pass `j`
    builds from draws `4 * j ..`, carries id `j + 1`, a minute in the horizon and
    a severity label.
   */
  lemma GenerateRecords(py: Builtins, n: int, hotspots: seq<Location>, nodes: seq<Location>, horizon: int,
                        stream: nat -> Unit, frac: real)
    requires Generate(py, n, hotspots, nodes, horizon, stream, frac).Ok?
    ensures var xs := Generate(py, n, hotspots, nodes, horizon, stream, frac).value;
      && |xs| == (if n > 0 then n else 0)
      && forall j | 0 <= j < |xs| ::
           var next := NextIncident(py, j + 1, Skip(Rng(stream, 0), 4 * j), hotspots, nodes, horizon, frac);
           && next.Ok? && next.value.0 == xs[j]
           && xs[j].incidentId == j + 1 && 0 <= xs[j].tsMin < horizon && xs[j].severity in SEVERITY_LABELS
  {
    var xs := Generate(py, n, hotspots, nodes, horizon, stream, frac).value;
    if n > 0 {
      var rs := Tabulate(Passes(py, hotspots, nodes, horizon, frac, stream), n);
      forall j | 0 <= j < |xs|
        ensures NextIncident(py, j + 1, Skip(Rng(stream, 0), 4 * j), hotspots, nodes, horizon, frac).Ok?
        ensures NextIncident(py, j + 1, Skip(Rng(stream, 0), 4 * j), hotspots, nodes, horizon, frac).value.0 == xs[j]
      {
        assert rs[j] == Pass(py, hotspots, nodes, horizon, frac, stream, j) == Ok(xs[j]);
      }
    }
  }

  /**
    Record `j` of a successful call takes its minute from draw `4 * j + 2` and
    its severity from draw `4 * j + 3` of the seeded stream.
   */
  lemma GenerateDraws(py: Builtins, n: int, hotspots: seq<Location>, nodes: seq<Location>, horizon: int,
                      stream: nat -> Unit, frac: real)
    requires Generate(py, n, hotspots, nodes, horizon, stream, frac).Ok?
    ensures var xs := Generate(py, n, hotspots, nodes, horizon, stream, frac).value;
      forall j | 0 <= j < |xs| ::
        xs[j].tsMin == Index(stream(4 * j + 2), horizon) && xs[j].severity == SeverityBand(stream(4 * j + 3))
  {
    GenerateRecords(py, n, hotspots, nodes, horizon, stream, frac);
    var xs := Generate(py, n, hotspots, nodes, horizon, stream, frac).value;
    forall j | 0 <= j < |xs|
      ensures xs[j].tsMin == Index(stream(4 * j + 2), horizon) && xs[j].severity == SeverityBand(stream(4 * j + 3))
    {
      PassDraws(py, hotspots, nodes, horizon, frac, stream, j, xs[j]);
    }
  }

  /** The record pass `j` builds takes its minute and severity from draws `4 * j + 2` and `4 * j + 3`. */
  lemma PassDraws(py: Builtins, hotspots: seq<Location>, nodes: seq<Location>, horizon: int, frac: real,
                  stream: nat -> Unit, j: nat, x: Incident)
    requires var next := NextIncident(py, j + 1, Skip(Rng(stream, 0), 4 * j), hotspots, nodes, horizon, frac);
      next.Ok? && next.value.0 == x
    ensures x.tsMin == Index(stream(4 * j + 2), horizon) && x.severity == SeverityBand(stream(4 * j + 3))
  {
    var rng := Skip(Rng(stream, 0), 4 * j);
    NextIncidentDraws(py, j + 1, rng, hotspots, nodes, horizon, frac);
    assert rng.source(rng.pos + 2) == stream(4 * j + 2) && rng.source(rng.pos + 3) == stream(4 * j + 3);
  }

  /** The records of a successful call are numbered `1 .. n`, as `incident_id=i + 1` numbers them. */
  lemma GenerateIds(py: Builtins, n: int, hotspots: seq<Location>, nodes: seq<Location>, horizon: int,
                    stream: nat -> Unit, frac: real)
    requires Generate(py, n, hotspots, nodes, horizon, stream, frac).Ok?
    ensures var xs := Generate(py, n, hotspots, nodes, horizon, stream, frac).value;
      |xs| == (if n > 0 then n else 0) && forall j | 0 <= j < |xs| :: xs[j].incidentId == j + 1
  {
    GenerateRecords(py, n, hotspots, nodes, horizon, stream, frac);
  }

  /**
    Each record takes its place fields from the location `choose_location`
    returned on its pass: a hotspot when the branch draw chose one, else a node.
   */
  lemma GenerateLocations(py: Builtins, n: int, hotspots: seq<Location>, nodes: seq<Location>, horizon: int,
                          stream: nat -> Unit, frac: real)
    requires Generate(py, n, hotspots, nodes, horizon, stream, frac).Ok?
    ensures var xs := Generate(py, n, hotspots, nodes, horizon, stream, frac).value;
      forall j | 0 <= j < |xs| ::
        var rng := Skip(Rng(stream, 0), 4 * j);
        var c := ChooseLocation(py, rng, hotspots, nodes, frac);
        && c.Ok? && Buildable(py, c.value.0) && CopiedFrom(py, xs[j], c.value.0)
        && (if UsesHotspot(rng, hotspots, frac) then c.value.0 in hotspots else c.value.0 in nodes)
  {
    GenerateRecords(py, n, hotspots, nodes, horizon, stream, frac);
    var xs := Generate(py, n, hotspots, nodes, horizon, stream, frac).value;
    forall j | 0 <= j < |xs|
      ensures var c := ChooseLocation(py, Skip(Rng(stream, 0), 4 * j), hotspots, nodes, frac);
        c.Ok? && Buildable(py, c.value.0) && CopiedFrom(py, xs[j], c.value.0)
    {
      NextIncidentPlace(py, j + 1, Skip(Rng(stream, 0), 4 * j), hotspots, nodes, horizon, frac);
    }
  }

  /**
    When every hotspot has a non-null `id` and no node does, a record has a
    `hotspot_id` exactly when its pass took the hotspot branch.
   */
  lemma HotspotIdMarksBranch(py: Builtins, n: int, hotspots: seq<Location>, nodes: seq<Location>, horizon: int,
                             stream: nat -> Unit, frac: real)
    requires Generate(py, n, hotspots, nodes, horizon, stream, frac).Ok?
    requires forall h | h in hotspots :: Get(h, "id", Null) != Null
    requires forall v | v in nodes :: Get(v, "id", Null) == Null
    ensures var xs := Generate(py, n, hotspots, nodes, horizon, stream, frac).value;
      forall j | 0 <= j < |xs| ::
        xs[j].hotspotId.Some? <==> UsesHotspot(Skip(Rng(stream, 0), 4 * j), hotspots, frac)
  {
    GenerateLocations(py, n, hotspots, nodes, horizon, stream, frac);
  }

  /**
    Because the draw lies in [0, 1): a fraction of 0 never picks a hotspot, a
    fraction of 1 always does when there are hotspots, and without hotspots the
    result is always a node.
   */
  lemma FractionExtremes(py: Builtins, rng: Rng, hotspots: seq<Location>, nodes: seq<Location>, frac: real)
    ensures var c := ChooseLocation(py, rng, hotspots, nodes, frac);
      && (frac == 0.0 && c.Ok? ==> !UsesHotspot(rng, hotspots, frac) && c.value.0 in nodes)
      && (frac == 1.0 && |hotspots| > 0 ==> UsesHotspot(rng, hotspots, frac) && (c.Ok? ==> c.value.0 in hotspots))
      && (|hotspots| == 0 && c.Ok? ==> c.value.0 in nodes)
  {
  }

  /** A fraction outside [0, 1] makes the first pass raise, so the whole call raises `ValueError`. */
  lemma BadFractionRaises(py: Builtins, n: int, hotspots: seq<Location>, nodes: seq<Location>, horizon: int,
                          stream: nat -> Unit, frac: real)
    requires n > 0 && !(0.0 <= frac <= 1.0)
    ensures Generate(py, n, hotspots, nodes, horizon, stream, frac) == Err(BadFraction)
  {
    var rs := Tabulate(Passes(py, hotspots, nodes, horizon, frac, stream), n);
    assert rs[0] == Pass(py, hotspots, nodes, horizon, frac, stream, 0) == Err(BadFraction);
    CollectFirstErr(rs, 0);
  }

  /**
    An empty horizon makes the first pass raise at `integers(0, horizon)`
    unless its location already raised.
   */
  lemma EmptyHorizonRaises(py: Builtins, n: int, hotspots: seq<Location>, nodes: seq<Location>, horizon: int,
                           stream: nat -> Unit, frac: real)
    requires n > 0 && horizon <= 0
    ensures var r := Generate(py, n, hotspots, nodes, horizon, stream, frac);
      && r.Err?
      && (ChooseLocation(py, Rng(stream, 0), hotspots, nodes, frac).Ok? ==> r.error == EmptyRange(horizon))
  {
    var rs := Tabulate(Passes(py, hotspots, nodes, horizon, frac, stream), n);
    assert Skip(Rng(stream, 0), 4 * 0) == Rng(stream, 0);
    assert rs[0] == Pass(py, hotspots, nodes, horizon, frac, stream, 0);
    CollectFirstErr(rs, 0);
  }

  /**
    Inputs on which no pass can raise whatever the draws: a fraction in [0, 1],
    a non-empty horizon, hotspots whose weights convert, locations that carry
    a convertible `node_id`, `lat` and `lon`, and nodes to fall back on unless
    the fraction is 1 and there are hotspots.
   */
  predicate CannotRaise(py: Builtins, hotspots: seq<Location>, nodes: seq<Location>, horizon: int, frac: real) {
    && 0.0 <= frac <= 1.0
    && horizon > 0
    && (forall h | h in hotspots :: Weight(py, h).Some? && Buildable(py, h))
    && (forall v | v in nodes :: Buildable(py, v))
    && (|nodes| > 0 || (frac == 1.0 && |hotspots| > 0))
  }

  /** Pass `j` can build its record: its location is chosen, the horizon is not empty, and the location converts. */
  predicate PassBuilds(py: Builtins, hotspots: seq<Location>, nodes: seq<Location>, horizon: int, frac: real,
                       stream: nat -> Unit, j: nat) {
    var c := ChooseLocation(py, Skip(Rng(stream, 0), 4 * j), hotspots, nodes, frac);
    c.Ok? && horizon > 0 && Buildable(py, c.value.0)
  }

  /**
    A call returns exactly when every pass can build its record from the
    location it draws, so a location no pass draws never makes it raise.
   */
  lemma GenerateOkIff(py: Builtins, n: int, hotspots: seq<Location>, nodes: seq<Location>, horizon: int,
                      stream: nat -> Unit, frac: real)
    ensures Generate(py, n, hotspots, nodes, horizon, stream, frac).Ok?
      <==> forall j: nat | j < n :: PassBuilds(py, hotspots, nodes, horizon, frac, stream, j)
  {
    if n > 0 {
      var rs := Tabulate(Passes(py, hotspots, nodes, horizon, frac, stream), n);
      forall j | 0 <= j < n
        ensures rs[j].Ok? <==> PassBuilds(py, hotspots, nodes, horizon, frac, stream, j)
      {
        NextIncidentRaises(py, j + 1, Skip(Rng(stream, 0), 4 * j), hotspots, nodes, horizon, frac);
      }
    }
  }

  /** On such inputs every pass builds its record. */
  lemma NextIncidentTotal(py: Builtins, id: int, rng: Rng, hotspots: seq<Location>, nodes: seq<Location>,
                          horizon: int, frac: real)
    requires CannotRaise(py, hotspots, nodes, horizon, frac)
    ensures NextIncident(py, id, rng, hotspots, nodes, horizon, frac).Ok?
  {
    assert forall j | 0 <= j < |hotspots| :: Weight(py, hotspots[j]).Some?;
    var c := ChooseLocation(py, rng, hotspots, nodes, frac);
    assert c.Ok?;
    assert Buildable(py, c.value.0);
  }

  /** On such inputs the call returns its `max(n, 0)` records whatever the draws. */
  lemma GenerateTotal(py: Builtins, n: int, hotspots: seq<Location>, nodes: seq<Location>, horizon: int,
                      stream: nat -> Unit, frac: real)
    requires CannotRaise(py, hotspots, nodes, horizon, frac)
    ensures Generate(py, n, hotspots, nodes, horizon, stream, frac).Ok?
  {
    if n > 0 {
      var rs := Tabulate(Passes(py, hotspots, nodes, horizon, frac, stream), n);
      forall j | 0 <= j < n
        ensures rs[j].Ok?
      {
        NextIncidentTotal(py, j + 1, Skip(Rng(stream, 0), 4 * j), hotspots, nodes, horizon, frac);
      }
    }
  }

  /** Two generators at the same position that will produce the same next `k` draws. */
  predicate AgreeOn(r1: Rng, r2: Rng, k: nat) {
    r1.pos == r2.pos && forall q: nat | r1.pos <= q < r1.pos + k :: r1.source(q) == r2.source(q)
  }

  /** Generators that agree on their next two draws make `choose_location` return the same location or error. */
  lemma ChooseLocationLocal(py: Builtins, r1: Rng, r2: Rng, hotspots: seq<Location>, nodes: seq<Location>, frac: real)
    requires AgreeOn(r1, r2, 2)
    ensures var a := ChooseLocation(py, r1, hotspots, nodes, frac);
      var b := ChooseLocation(py, r2, hotspots, nodes, frac);
      && a.Ok? == b.Ok?
      && (a.Ok? ==> a.value.0 == b.value.0)
      && (a.Err? ==> a.error == b.error)
  {
    if 0.0 <= frac <= 1.0 {
      var u, v := r1.source(r1.pos), r1.source(r1.pos + 1);
      assert u == r2.source(r2.pos) && v == r2.source(r2.pos + 1);
      assert Random(r1) == (u, Skip(r1, 1)) && Random(Skip(r1, 1)) == (v, Skip(r1, 2));
      assert Random(r2) == (u, Skip(r2, 1)) && Random(Skip(r2, 1)) == (v, Skip(r2, 2));
      match Place(py, hotspots, nodes, frac, u, v)
      case Err(e) =>
        assert ChooseLocation(py, r1, hotspots, nodes, frac) == Err(e);
        assert ChooseLocation(py, r2, hotspots, nodes, frac) == Err(e);
      case Ok(loc) =>
        assert ChooseLocation(py, r1, hotspots, nodes, frac) == Ok((loc, Skip(r1, 2)));
        assert ChooseLocation(py, r2, hotspots, nodes, frac) == Ok((loc, Skip(r2, 2)));
    }
  }

  /** Generators that agree on their next four draws give one pass the same record or the same error. */
  lemma NextIncidentLocal(py: Builtins, id: int, r1: Rng, r2: Rng, hotspots: seq<Location>, nodes: seq<Location>,
                          horizon: int, frac: real)
    requires AgreeOn(r1, r2, 4)
    ensures var a := NextIncident(py, id, r1, hotspots, nodes, horizon, frac);
      var b := NextIncident(py, id, r2, hotspots, nodes, horizon, frac);
      && a.Ok? == b.Ok?
      && (a.Ok? ==> a.value.0 == b.value.0)
      && (a.Err? ==> a.error == b.error)
  {
    ChooseLocationLocal(py, r1, r2, hotspots, nodes, frac);
    var c1 := ChooseLocation(py, r1, hotspots, nodes, frac);
    var c2 := ChooseLocation(py, r2, hotspots, nodes, frac);
    if c1.Ok? {
      var m1 := c1.value.1;
      var m2 := c2.value.1;
      assert m1.source(m1.pos) == m2.source(m2.pos) by {
        assert r1.source(r1.pos + 2) == r2.source(r2.pos + 2);
      }
      assert Skip(m1, 1).source(Skip(m1, 1).pos) == Skip(m2, 1).source(Skip(m2, 1).pos) by {
        assert r1.source(r1.pos + 3) == r2.source(r2.pos + 3);
      }
    }
  }

  /** Streams that agree on draws `4 * j .. 4 * j + 3` give pass `j` the same outcome. */
  lemma PassLocal(py: Builtins, hotspots: seq<Location>, nodes: seq<Location>, horizon: int, frac: real,
                  s1: nat -> Unit, s2: nat -> Unit, j: nat)
    requires forall p: nat | 4 * j <= p < 4 * j + 4 :: s1(p) == s2(p)
    ensures Pass(py, hotspots, nodes, horizon, frac, s1, j) == Pass(py, hotspots, nodes, horizon, frac, s2, j)
  {
    var r1 := Skip(Rng(s1, 0), 4 * j);
    var r2 := Skip(Rng(s2, 0), 4 * j);
    assert AgreeOn(r1, r2, 4);
    NextIncidentLocal(py, j + 1, r1, r2, hotspots, nodes, horizon, frac);
  }

  /**
    The output is a function of the inputs and the draws: the records of `n`
    passes depend on the first `4 * n` draws only, so two seeded generators that
    agree on those give the same result.
   */
  lemma GenerateReproducible(py: Builtins, n: int, hotspots: seq<Location>, nodes: seq<Location>, horizon: int,
                             s1: nat -> Unit, s2: nat -> Unit, frac: real)
    requires forall p: nat | p < 4 * n :: s1(p) == s2(p)
    ensures Generate(py, n, hotspots, nodes, horizon, s1, frac) == Generate(py, n, hotspots, nodes, horizon, s2, frac)
  {
    if n > 0 {
      var f1 := Passes(py, hotspots, nodes, horizon, frac, s1);
      var f2 := Passes(py, hotspots, nodes, horizon, frac, s2);
      forall j: nat | j < n
        ensures f1(j) == f2(j)
      {
        PassLocal(py, hotspots, nodes, horizon, frac, s1, s2, j);
      }
      TabulateEqual(f1, f2, n);
    }
  }
}
