/** One simulated Compton event reduced to the record the track classifier
    uses: the event ID, the depth of the first Compton scatter, and four
    parallel per-hit columns (x, y, z position and deposited energy). */
module ComptonTracks {

  datatype Position = Position(x: real, y: real, z: real)

  /** An interaction of the simulation truth: its process tag ("COMP",
      "PHOT", ...), the type of detector it happened in, and where. */
  datatype Interaction = Interaction(process: string, detectorType: int, position: Position)

  /** A detector hit: where it was measured and how much energy it holds. */
  datatype Hit = Hit(position: Position, energy: real)

  /** The parts of a simulated event that parsing reads. */
  datatype SimEvent = SimEvent(id: int, interactions: seq<Interaction>, hits: seq<Hit>)

  /** The observable state of an event record. */
  datatype Record = Record(id: int, originPositionZ: real,
                           x: seq<real>, y: seq<real>, z: seq<real>, e: seq<real>)
  {
    /** The four per-hit columns describe the same hits. */
    predicate Aligned() {
      |x| == |y| == |z| == |e|
    }
  }

  /** The state of a newly constructed record. */
  const Initial := Record(0, 0.0, [], [], [], [])

  /** Acceptance: more than two interactions, more than two hits, and the
      interaction at index 1 (the first one after the initial one) is a
      Compton scatter in detector type 1. */
  predicate Accepted(ev: SimEvent) {
    && |ev.interactions| > 2
    && |ev.hits| > 2
    && ev.interactions[1].process == "COMP"
    && ev.interactions[1].detectorType == 1
  }

  /** The column of one per-hit quantity, in hit order. */
  function Column(hits: seq<Hit>, f: Hit -> real): (c: seq<real>)
    ensures |c| == |hits|
    ensures forall i :: 0 <= i < |hits| ==> c[i] == f(hits[i])
  {
    seq(|hits|, i requires 0 <= i < |hits| => f(hits[i]))
  }

  function HitX(h: Hit): real { h.position.x }
  function HitY(h: Hit): real { h.position.y }
  function HitZ(h: Hit): real { h.position.z }
  function HitE(h: Hit): real { h.energy }

  /** What one `parse` call does to a record: the success flag it returns and
      the record afterwards. */
  function ParseEvent(r: Record, ev: SimEvent): (result: (bool, Record))
    // the ID is taken from the event whether or not it is accepted
    ensures result.1.id == ev.id
    // rejected exactly when there are too few interactions or hits, or the
    // interaction at index 1 is not a Compton scatter in detector type 1
    ensures !result.0 <==>
      || |ev.interactions| <= 2
      || |ev.hits| <= 2
      || ev.interactions[1].process != "COMP"
      || ev.interactions[1].detectorType != 1
    // a rejected event changes nothing but the ID
    ensures !result.0 ==> result.1 == r.(id := ev.id)
    // an accepted event replaces the columns by its hits, in hit order
    ensures result.0 ==>
      && result.1.Aligned()
      && |result.1.x| == |ev.hits|
      && forall i :: 0 <= i < |ev.hits| ==>
           && result.1.x[i] == ev.hits[i].position.x
           && result.1.y[i] == ev.hits[i].position.y
           && result.1.z[i] == ev.hits[i].position.z
           && result.1.e[i] == ev.hits[i].energy
    // ... and the origin depth by that of the interaction at index 1
    ensures result.0 ==> result.1.originPositionZ == ev.interactions[1].position.z
    ensures r.Aligned() ==> result.1.Aligned()
  {
    if Accepted(ev) then
      (true, Record(ev.id, ev.interactions[1].position.z,
                    Column(ev.hits, HitX), Column(ev.hits, HitY),
                    Column(ev.hits, HitZ), Column(ev.hits, HitE)))
    else
      (false, r.(id := ev.id))
  }

  /** The record after parsing `events` one after another. */
  function ParseAll(r: Record, events: seq<SimEvent>): Record
    decreases |events|
  {
    if events == [] then r else ParseAll(ParseEvent(r, events[0]).1, events[1..])
  }

  /** However many events a record has parsed, accepted or not, its four
      columns have equal length. */
  lemma {:induction false} ParseAllKeepsAligned(r: Record, events: seq<SimEvent>)
    requires r.Aligned()
    ensures ParseAll(r, events).Aligned()
    decreases |events|
  {
    if events != [] {
      ParseAllKeepsAligned(ParseEvent(r, events[0]).1, events[1..]);
    }
  }

  /** After a run of parses the record carries the ID of the last event, and
      its columns and origin depth are still those it started with when no
      event of the run was accepted. */
  lemma {:induction false} ParseAllRejected(r: Record, events: seq<SimEvent>)
    requires events != []
    requires forall k :: 0 <= k < |events| ==> !Accepted(events[k])
    ensures ParseAll(r, events) == r.(id := events[|events| - 1].id)
    decreases |events|
  {
    var next := ParseEvent(r, events[0]).1;
    if |events| > 1 {
      ParseAllRejected(next, events[1..]);
      assert events[1..][|events[1..]| - 1] == events[|events| - 1];
    }
  }

  /** The fill loop of `parse`: new arrays of the hit count holding each
      hit's x, y, z position and energy, in hit order. */
  method FillColumns(hits: seq<Hit>) returns (xs: array<real>, ys: array<real>, zs: array<real>, es: array<real>)
    ensures fresh(xs) && fresh(ys) && fresh(zs) && fresh(es)
    ensures xs[..] == Column(hits, HitX) && ys[..] == Column(hits, HitY)
    ensures zs[..] == Column(hits, HitZ) && es[..] == Column(hits, HitE)
  {
    var n := |hits|;
    xs := new real[n];
    ys := new real[n];
    zs := new real[n];
    es := new real[n];

    for i := 0 to n
      modifies xs, ys, zs, es
      invariant forall k :: 0 <= k < i ==> xs[k] == hits[k].position.x
      invariant forall k :: 0 <= k < i ==> ys[k] == hits[k].position.y
      invariant forall k :: 0 <= k < i ==> zs[k] == hits[k].position.z
      invariant forall k :: 0 <= k < i ==> es[k] == hits[k].energy
    {
      xs[i] := hits[i].position.x;
      ys[i] := hits[i].position.y;
      zs[i] := hits[i].position.z;
      es[i] := hits[i].energy;
    }
    assert xs[..] == Column(hits, HitX) && ys[..] == Column(hits, HitY);
    assert zs[..] == Column(hits, HitZ) && es[..] == Column(hits, HitE);
  }

  /** The record that `parse` fills. The four column arrays are numpy float
      arrays; a successful parse allocates new ones of the hit count and
      fills them element by element, in hit order. */
  class EventData {
    var ID: int
    var OriginPositionZ: real
    var X: array<real>
    var Y: array<real>
    var Z: array<real>
    var E: array<real>

    ghost predicate Valid()
      reads this
    {
      X.Length == Y.Length == Z.Length == E.Length
    }

    ghost function Value(): Record
      reads this, X, Y, Z, E
    {
      Record(ID, OriginPositionZ, X[..], Y[..], Z[..], E[..])
    }

    constructor ()
      ensures Valid()
      ensures Value() == Initial
    {
      ID := 0;
      OriginPositionZ := 0.0;
      X := new real[0];
      Y := new real[0];
      Z := new real[0];
      E := new real[0];
    }

    /** Parses `ev` into this record and returns whether it was accepted. */
    method Parse(ev: SimEvent) returns (ok: bool)
      requires Valid()
      modifies this
      ensures Valid()
      ensures (ok, Value()) == ParseEvent(old(Value()), ev)
      // success installs new arrays; failure keeps the old ones
      ensures ok ==> fresh(X) && fresh(Y) && fresh(Z) && fresh(E)
      ensures !ok ==> X == old(X) && Y == old(Y) && Z == old(Z) && E == old(E)
    {
      ID := ev.id;

      if |ev.interactions| > 2 && |ev.hits| > 2 {
        if ev.interactions[1].process == "COMP" && ev.interactions[1].detectorType == 1 {
          var xs, ys, zs, es := FillColumns(ev.hits);
          X, Y, Z, E := xs, ys, zs, es;
          OriginPositionZ := ev.interactions[1].position.z;
        } else {
          return false;
        }
      } else {
        return false;
      }

      return true;
    }
  }
}
