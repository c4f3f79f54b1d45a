/** A table of mesh ports, one per service port, kept in step with the shadow services. */
module PortMappings {
  import opened Basics
  import opened Topologies
  import opened ShadowNames

  /** The service port a mesh port stands for. */
  datatype Mapped = Mapped(namespace: string, name: string, port: Int32)

  type Table = map<Int32, Mapped>

  type ShadowListing = seq<(string, seq<ServicePort>)>

  /** Target q of the table is m. */
  predicate Holds(table: Table, q: Int32, m: Mapped) {
    q in table && table[q] == m
  }

  /** No service port is mapped twice. */
  ghost predicate Injective(table: Table) {
    forall q, r :: q in table && r in table && table[q] == table[r] ==> q == r
  }

  /** The table without the mapping of m. */
  ghost function Dropped(table: Table, m: Mapped): Table {
    map q | q in table && table[q] != m :: table[q]
  }

  /** The least port from lo to hi that is not taken. */
  function LeastFree(table: Table, lo: Int32, hi: Int32): (r: Option<Int32>)
    ensures r.Some? ==> lo <= r.value <= hi && r.value !in table && forall i :: lo <= i < r.value ==> i in table
    ensures r.None? ==> forall i :: lo <= i <= hi ==> i in table
    decreases hi as int - lo as int
  {
    if lo > hi then None
    else if lo !in table then Some(lo)
    else if lo == hi then None
    else LeastFree(table, lo + 1, hi)
  }

  /**
   The port that is given out. When the range ends at the largest 32-bit integer, a scan that finds nothing in it
   wraps around and goes on from the smallest one.
   */
  function NextFree(table: Table, lo: Int32, hi: Int32): Option<Int32> {
    var free := LeastFree(table, lo, hi);
    if free.None? && lo <= hi == MAX_INT32 then LeastFree(table, MIN_INT32, MAX_INT32) else free
  }

  function Range(lo: Int32, hi: Int32): (r: set<Int32>)
    requires lo <= hi
    ensures forall i :: i in r <==> lo <= i <= hi
    ensures |r| == hi as int - lo as int + 1
    decreases hi as int - lo as int
  {
    if lo == hi then {lo} else {lo} + Range(lo + 1, hi)
  }

  lemma SmallerSubset(a: set<Int32>, b: set<Int32>)
    requires a <= b
    ensures |a| <= |b| && (|a| == |b| <==> a == b)
  {
    assert b == a + (b - a);
  }

  /**
   A port of the range is given out exactly when the table holds fewer mappings than the range has ports. When it
   does not, allocation fails, unless the range ends at the largest 32-bit integer: then a port below the range
   is given out.
   */
  lemma FullExactly(table: Table, lo: Int32, hi: Int32)
    requires lo <= hi && forall q :: q in table ==> lo <= q <= hi
    ensures (NextFree(table, lo, hi).Some? && lo <= NextFree(table, lo, hi).value <= hi) <==>
              |table| < hi as int - lo as int + 1
    ensures |table| <= hi as int - lo as int + 1
    ensures |table| == hi as int - lo as int + 1 ==>
              if hi < MAX_INT32 || lo == MIN_INT32 then NextFree(table, lo, hi).None?
              else NextFree(table, lo, hi).Some? && NextFree(table, lo, hi).value < lo
  {
    hide LeastFree;
    FilledExactly(table.Keys, lo, hi);
    assert |table| == |table.Keys|;
    var free := LeastFree(table, lo, hi);
    assert free.None? <==> forall q :: lo <= q <= hi ==> q in table.Keys;
    if hi == MAX_INT32 && lo > MIN_INT32 {
      assert MIN_INT32 !in table;
    }
  }

  /** Ports of a range are all of them exactly when they are as many. */
  lemma FilledExactly(ports: set<Int32>, lo: Int32, hi: Int32)
    requires lo <= hi && forall q :: q in ports ==> lo <= q <= hi
    ensures |ports| <= hi as int - lo as int + 1
    ensures |ports| == hi as int - lo as int + 1 <==> forall q :: lo <= q <= hi ==> q in ports
  {
    var range := Range(lo, hi);
    SmallerSubset(ports, range);
    if forall q :: lo <= q <= hi ==> q in ports {
      assert ports == range;
    }
  }

  // ---- Loading ----

  function LoadPorts(id: ServiceId, lo: Int32, hi: Int32, ports: seq<ServicePort>, table: Table): Table
    decreases |ports|
  {
    if ports == [] then table
    else
      var p := ports[0];
      LoadPorts(id, lo, hi, ports[1..],
                if lo <= p.targetPort <= hi then table[p.targetPort := Mapped(id.namespace, id.name, p.port)]
                else table)
  }

  function LoadShadows(mesh: string, lo: Int32, hi: Int32, shadows: ShadowListing, table: Table): Table
    decreases |shadows|
  {
    if shadows == [] then table
    else
      match Parse(mesh, shadows[0].0)
      case None => LoadShadows(mesh, lo, hi, shadows[1..], table)
      case Some(id) => LoadShadows(mesh, lo, hi, shadows[1..], LoadPorts(id, lo, hi, shadows[0].1, table))
  }

  class PortMapping {
    const namespace: string
    const minPort: Int32
    const maxPort: Int32
    var table: Table

    constructor (namespace: string, minPort: Int32, maxPort: Int32)
      ensures this.namespace == namespace && this.minPort == minPort && this.maxPort == maxPort && table == map[]
    {
      this.namespace, this.minPort, this.maxPort := namespace, minPort, maxPort;
      table := map[];
    }

    /** Initializes the table from the shadow services, as listed. Protocols are ignored. */
    method LoadState(shadows: ShadowListing)
      modifies this
      ensures table == LoadShadows(namespace, minPort, maxPort, shadows, old(table))
    {
      for i := 0 to |shadows|
        invariant LoadShadows(namespace, minPort, maxPort, shadows[i..], table) ==
                    LoadShadows(namespace, minPort, maxPort, shadows, old(table))
      {
        assert shadows[i..][1..] == shadows[i + 1..];
        var parsed := Parse(namespace, shadows[i].0);
        if parsed.None? {
          continue;
        }
        var ports := shadows[i].1;
        ghost var before := table;
        for j := 0 to |ports|
          invariant LoadPorts(parsed.value, minPort, maxPort, ports[j..], table) ==
                      LoadPorts(parsed.value, minPort, maxPort, ports, before)
        {
          assert ports[j..][1..] == ports[j + 1..];
          var targetPort := ports[j].targetPort;
          if minPort <= targetPort && targetPort <= maxPort {
            table := table[targetPort := Mapped(parsed.value.namespace, parsed.value.name, ports[j].port)];
          }
        }
      }
    }

    /** The table is ranged over in no particular order: any port mapped to m may be found. */
    method Find(m: Mapped) returns (mappedPort: Int32, ok: bool)
      ensures ok ==> Holds(table, mappedPort, m)
      ensures !ok ==> forall q :: !Holds(table, q, m)
    {
      var todo := table.Keys;
      while todo != {}
        invariant todo <= table.Keys
        invariant forall q :: Holds(table, q, m) ==> q in todo
        decreases todo
      {
        var q :| q in todo;
        if table[q] == m {
          return q, true;
        }
        todo := todo - {q};
      }
      return 0, false;
    }

    /**
     Maps m to the first port available. With a range that ends at the largest 32-bit integer the scan wraps
     around; it would never end if all integers were taken.
     */
    method Add(m: Mapped) returns (r: Option<Int32>)
      requires maxPort < MAX_INT32 || exists q: Int32 :: q !in table
      modifies this
      ensures r == NextFree(old(table), minPort, maxPort)
      ensures table == if r.Some? then old(table)[r.value := m] else old(table)
    {
      var i := minPort;
      ghost var wrapped := false;
      while i <= maxPort
        decreases if wrapped then 0 else 1, MAX_INT32 as int - i as int
        invariant table == old(table)
        invariant wrapped ==> minPort <= maxPort == MAX_INT32 && LeastFree(table, minPort, maxPort).None?
        invariant wrapped ==> LeastFree(table, i, MAX_INT32) == LeastFree(table, MIN_INT32, MAX_INT32)
        invariant !wrapped ==> minPort <= i && LeastFree(table, i, maxPort) == LeastFree(table, minPort, maxPort)
      {
        if i in table {
          if i == MAX_INT32 {
            i, wrapped := MIN_INT32, true;
          } else {
            i := i + 1;
          }
          continue;
        }
        table := table[i := m];
        return Some(i);
      }
      return None;
    }

    /** Removes one mapping of m, and with it the only one when no service port is mapped twice. */
    method Remove(m: Mapped) returns (r: Option<Int32>)
      modifies this
      ensures r.Some? ==> Holds(old(table), r.value, m) && table == old(table) - {r.value}
      ensures r.None? ==> table == old(table) && forall q :: !Holds(old(table), q, m)
      ensures Injective(old(table)) ==> table == Dropped(old(table), m)
    {
      var port, ok := Find(m);
      assert forall q :: q in table && table[q] == m ==> Holds(table, q, m);
      if !ok {
        assert table == Dropped(table, m);
        return None;
      }
      table := table - {port};
      assert Injective(old(table)) ==> table == Dropped(old(table), m);
      return Some(port);
    }
  }
}
