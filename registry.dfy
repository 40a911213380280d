/** The toll-booth registry: an insertion-ordered dictionary from booth name to location. */
module Registry {
  import opened Geo

  datatype Option<T> = None | Some(value: T)

  datatype Booth = Booth(name: string, location: GeoPoint)

  /** Dictionary keys are unique. */
  predicate DistinctNames(booths: seq<Booth>) {
    forall i, j :: 0 <= i < j < |booths| ==> booths[i].name != booths[j].name
  }

  /** The registry the simulator starts with. */
  const INITIAL_BOOTHS: seq<Booth> := [
    Booth("Booth1", GeoPoint(28.7041, 77.1025)),
    Booth("Booth2", GeoPoint(19.0760, 72.8777)),
    Booth("Booth3", GeoPoint(13.0827, 80.2707))
  ]

  lemma InitialBoothsDistinct()
    ensures DistinctNames(INITIAL_BOOTHS) && |INITIAL_BOOTHS| == 3
  {
  }

  /** Dictionary lookup: the location stored under `name`, if any. */
  function Lookup(booths: seq<Booth>, name: string): Option<GeoPoint> {
    if booths == [] then None
    else if booths[0].name == name then Some(booths[0].location)
    else Lookup(booths[1..], name)
  }

  /** Dictionary assignment `registry[name] = location`: an existing key keeps
      its place and takes the new value, a new key goes at the end. */
  function Assign(booths: seq<Booth>, name: string, location: GeoPoint): (r: seq<Booth>)
    ensures Lookup(r, name) == Some(location)
    ensures forall other :: other != name ==> Lookup(r, other) == Lookup(booths, other)
    ensures Lookup(booths, name).None? ==> r == booths + [Booth(name, location)]
    ensures Lookup(booths, name).Some? ==> |r| == |booths|
    ensures DistinctNames(booths) && Lookup(booths, name).Some? ==>
              forall j :: 0 <= j < |booths| ==>
                r[j] == if booths[j].name == name then Booth(name, location) else booths[j]
    ensures forall b :: b in r ==> b.name == name || b in booths
    ensures DistinctNames(booths) ==> DistinctNames(r)
  {
    if booths == [] then [Booth(name, location)]
    else if booths[0].name == name then [Booth(name, location)] + booths[1..]
    else [booths[0]] + Assign(booths[1..], name, location)
  }
}
