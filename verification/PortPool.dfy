/** Narrowing a service's instances to one port, and saying when they do not agree on one. */
module PortPool {
  import opened Registry
  import opened StableSort

  datatype PortConflict = PortConflict(serviceName: string, ports: seq<Port>, declared: Port, chosen: Port, excluded: nat)

  function OnPort(p: Port): Instance -> bool {
    (i: Instance) => i.port == p
  }

  /** Zero declares nothing and keeps everything. */
  function Pool(instances: seq<Instance>, declared: Port): seq<Instance> {
    if declared == 0 then instances else Keep(instances, OnPort(declared))
  }

  ghost predicate AllOn(instances: seq<Instance>, p: Port) {
    forall i :: i in instances ==> i.port == p
  }

  /** Everything agrees: one port, and not another one than declared. */
  ghost predicate Agree(instances: seq<Instance>, declared: Port) {
    exists p: Port :: AllOn(instances, p) && (declared == 0 || declared == p)
  }

  ghost predicate PortsOf(ports: seq<Port>, instances: seq<Instance>) {
    && (forall p :: p in ports ==> exists i :: i in instances && i.port == p)
    && (forall i :: i in instances ==> i.port in ports)
  }

  lemma OnePortAgrees(instances: seq<Instance>, ports: seq<Port>, declared: Port)
    requires instances != [] && PortsOf(ports, instances) && Distinct(ports)
    ensures |ports| > 0
    ensures Agree(instances, declared) <==> |ports| == 1 && (declared == 0 || ports[0] == declared)
  {
    assert instances[0].port in ports;
    if |ports| == 1 {
      assert AllOn(instances, ports[0]);
    } else {
      assert ports[0] in ports && ports[1] in ports;
      var i :| i in instances && i.port == ports[0];
      var j :| j in instances && j.port == ports[1];
    }
  }

  predicate PortLess(a: Port, b: Port) {
    a < b
  }

  lemma {:induction false} KeptAndLeft<T(!new)>(s: seq<T>, f: T -> bool, g: T -> bool)
    requires forall x :: x in s ==> f(x) != g(x)
    ensures |Keep(s, f)| + |Keep(s, g)| == |s|
  {
    if s != [] {
      KeptAndLeft(s[..|s| - 1], f, g);
    }
  }

  function OffPort(p: Port): Instance -> bool {
    (i: Instance) => i.port != p
  }

  /** The distinct ports in ascending order. */
  method SortPorts(ports: seq<Port>) returns (out: seq<Port>)
    requires Distinct(ports)
    ensures Ascending(out, PortLess) && |out| == |ports| && forall p :: p in out <==> p in ports
  {
    var a := new Port[|ports|](i requires 0 <= i < |ports| => ports[i]);
    assert a[..] == ports;
    Sort(a, PortLess);
    out := a[..];
    SortedIsOrdered(ports, PortLess);
    SameMembers(ports, PortLess);
    SortedDistinct(ports, PortLess);
  }

  method SelectPortPool(instances: seq<Instance>, declared: Port) returns (pool: seq<Instance>, conflict: Option<PortConflict>)
    ensures pool == Pool(instances, declared)
    ensures conflict.None? <==> instances == [] || Agree(instances, declared)
    ensures conflict.Some? ==>
              var c := conflict.value;
              && instances != [] && c.serviceName == instances[0].serviceName && c.declared == c.chosen == declared
              && Ascending(c.ports, PortLess) && PortsOf(c.ports, instances)
              && |pool| + c.excluded == |instances|
  {
    if |instances| == 0 {
      return instances, None;
    }
    var byPort, ports := GroupByPort(instances);
    ports := SortPorts(ports);
    OnePortAgrees(instances, ports, declared);
    var serviceName := instances[0].serviceName;
    if declared != 0 {
      if declared !in byPort {
        NoneKept(instances, declared);
      }
      pool := if declared in byPort then byPort[declared] else [];
      KeptAndLeft(instances, OnPort(declared), OffPort(declared));
      if |ports| == 1 && ports[0] == declared {
        return pool, None;
      }
      return pool, Some(PortConflict(serviceName, ports, declared, declared, |instances| - |pool|));
    }
    if |ports| == 1 {
      return instances, None;
    }
    return instances, Some(PortConflict(serviceName, ports, 0, 0, 0));
  }

  lemma OneMorePort(ports: seq<Port>, seen: seq<Instance>, inst: Instance)
    requires PortsOf(ports, seen) && Distinct(ports)
    ensures PortsOf(if inst.port in ports then ports else ports + [inst.port], seen + [inst])
    ensures inst.port !in ports ==> Distinct(ports + [inst.port]) && forall i :: i in seen ==> i.port != inst.port
  {
    assert inst in seen + [inst];
    forall p | p in ports
      ensures exists i :: i in seen + [inst] && i.port == p
    {
      var i :| i in seen && i.port == p;
      assert i in seen + [inst];
    }
  }

  ghost predicate ByPort(byPort: map<Port, seq<Instance>>, instances: seq<Instance>) {
    forall p :: p in byPort ==> byPort[p] == Keep(instances, OnPort(p))
  }

  ghost predicate Grouped(byPort: map<Port, seq<Instance>>, ports: seq<Port>, instances: seq<Instance>) {
    && Distinct(ports) && PortsOf(ports, instances)
    && (forall p :: p in ports <==> p in byPort)
    && ByPort(byPort, instances)
  }

  lemma KeepNext(seen: seq<Instance>, inst: Instance, p: Port)
    ensures Keep(seen + [inst], OnPort(p)) == Keep(seen, OnPort(p)) + if inst.port == p then [inst] else []
  {
    assert (seen + [inst])[..|seen|] == seen;
  }

  lemma OneMoreByPort(byPort: map<Port, seq<Instance>>, seen: seq<Instance>, inst: Instance)
    requires ByPort(byPort, seen)
    ensures inst.port in byPort ==> ByPort(byPort[inst.port := byPort[inst.port] + [inst]], seen + [inst])
    ensures inst.port !in byPort && (forall i :: i in seen ==> i.port != inst.port) ==>
              ByPort(byPort[inst.port := [inst]], seen + [inst])
  {
    var known := if inst.port in byPort then byPort[inst.port] else [];
    var after := byPort[inst.port := known + [inst]];
    if forall i :: i in seen ==> i.port != inst.port {
      NoneKept(seen, inst.port);
    }
    if known == Keep(seen, OnPort(inst.port)) {
      forall p | p in after
        ensures after[p] == Keep(seen + [inst], OnPort(p))
      {
        KeepNext(seen, inst, p);
      }
    }
    assert [] + [inst] == [inst];
  }

  /** The instances by port, in order, and the ports as first met. */
  method GroupByPort(instances: seq<Instance>) returns (byPort: map<Port, seq<Instance>>, ports: seq<Port>)
    ensures Grouped(byPort, ports, instances)
  {
    byPort, ports := map[], [];
    for n := 0 to |instances|
      invariant Grouped(byPort, ports, instances[..n])
    {
      var inst := instances[n];
      assert instances[..n + 1] == instances[..n] + [inst];
      OneMorePort(ports, instances[..n], inst);
      OneMoreByPort(byPort, instances[..n], inst);
      if inst.port !in byPort {
        ports := ports + [inst.port];
        byPort := byPort[inst.port := [inst]];
      } else {
        byPort := byPort[inst.port := byPort[inst.port] + [inst]];
      }
    }
    assert instances[..|instances|] == instances;
  }

  lemma {:induction false} NoneKept(s: seq<Instance>, p: Port)
    requires forall i :: i in s ==> i.port != p
    ensures Keep(s, OnPort(p)) == []
  {
    if s != [] {
      NoneKept(s[..|s| - 1], p);
    }
  }
}
