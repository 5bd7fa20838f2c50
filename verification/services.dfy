/** The part of a container-agent service's configuration that ordering and shutdown depend on. */
module Services {
  import opened Graphs
  import opened Options
  import opened Sequences

  /**
   `wellFormed` is the verdict of the service's own field checks; `shutdownTimeout` is the
   parsed value in nanoseconds, `None` when it is absent or does not parse.
   */
  datatype Service = Service(
    name: string,
    dependsOn: seq<string>,
    wellFormed: bool,
    shutdownTimeout: Option<nat>)

  function NamesOf(services: seq<Service>): (r: seq<string>)
    ensures |r| == |services|
    ensures forall i :: 0 <= i < |r| ==> r[i] == services[i].name
  {
    seq(|services|, i requires 0 <= i < |services| => services[i].name)
  }

  function NameSet(services: seq<Service>): set<string> {
    set s | s in services :: s.name
  }

  predicate UniqueNames(services: seq<Service>) {
    Distinct(NamesOf(services))
  }

  predicate KnownDependencies(services: seq<Service>) {
    forall s, d :: s in services && d in s.dependsOn ==> d in NameSet(services)
  }

  /** The dependency lists by name; a later service of the same name hides an earlier one. */
  function ByName(services: seq<Service>): (g: Graph<string>)
    ensures g.Keys == NameSet(services)
    ensures forall k :: k in g ==> exists s :: s in services && s.name == k && s.dependsOn == g[k]
  {
    if services == [] then map[]
    else
      var last := services[|services| - 1];
      assert services == services[..|services| - 1] + [last];
      ByName(services[..|services| - 1])[last.name := last.dependsOn]
  }

  /** What the configuration check promises about a service list. */
  ghost predicate Validated(services: seq<Service>) {
    && (forall s :: s in services ==> s.wellFormed)
    && UniqueNames(services)
    && KnownDependencies(services)
    && Acyclic(ByName(services))
  }

  lemma SameName(services: seq<Service>, s: Service, t: Service)
    requires UniqueNames(services) && s in services && t in services && s.name == t.name
    ensures s == t
  {
    var i :| 0 <= i < |services| && services[i] == s;
    var j :| 0 <= j < |services| && services[j] == t;
    assert NamesOf(services)[i] == NamesOf(services)[j];
  }

  lemma UniqueByName(services: seq<Service>)
    requires UniqueNames(services)
    ensures forall s :: s in services ==> s.name in ByName(services) && ByName(services)[s.name] == s.dependsOn
  {
    var g := ByName(services);
    forall s | s in services ensures s.name in g && g[s.name] == s.dependsOn {
      assert s.name in NameSet(services);
      var t :| t in services && t.name == s.name && t.dependsOn == g[s.name];
      SameName(services, s, t);
    }
  }
}
