/** The names of shadow services, and reading the service back from such a name. */
module ShadowNames {
  import opened Basics
  import opened Texts

  const MARKER := "-6d61657368-"

  datatype ServiceId = ServiceId(namespace: string, name: string)

  /** The name of the shadow service of the given service, for a mesh installed in namespace mesh. */
  function ShadowName(mesh: string, id: ServiceId): string {
    mesh + "-" + id.name + MARKER + id.namespace
  }

  /** The last occurrence of sub in s at or before index i. */
  function LastOccurrence(s: string, sub: string, i: int): (r: Option<nat>)
    ensures r.Some? ==> Occurs(s, sub, r.value) && r.value <= i && forall j :: r.value < j <= i ==> !Occurs(s, sub, j)
    ensures r.None? ==> forall j :: j <= i ==> !Occurs(s, sub, j)
    decreases i + 1
  {
    if i < 0 then None else if Occurs(s, sub, i) then Some(i) else LastOccurrence(s, sub, i - 1)
  }

  /**
   The leftmost match of the pattern mesh-(.*)-6d61657368-(.*), whose first group is greedy. The mesh
   namespace holds no pattern characters, and the text no line break.
   */
  function Parse(mesh: string, text: string): Option<ServiceId>
    decreases |text|
  {
    if text == "" then None
    else
      var skip := |mesh| + 1;
      if mesh + "-" <= text && LastOccurrence(text[skip..], MARKER, |text|).Some? then
        var rest := text[skip..];
        var at := LastOccurrence(rest, MARKER, |text|).value;
        Some(ServiceId(rest[at + |MARKER|..], rest[..at]))
      else Parse(mesh, text[1..])
  }

  /** The marker cannot be mistaken for a part of the namespace. */
  predicate Parseable(namespace: string) {
    !Contains("-" + namespace, MARKER)
  }

  /** The last character of the marker is the dash in front of the namespace. */
  lemma MarkerThenTail(name: string, namespace: string)
    ensures name + MARKER + namespace == (name + MARKER[..11]) + ("-" + namespace)
  {
    assert MARKER == MARKER[..11] + "-";
  }

  lemma OccursIn(front: string, tail: string, i: int)
    requires i >= |front|
    ensures Occurs(front + tail, MARKER, i) <==> Occurs(tail, MARKER, i - |front|)
  {
    if i <= |front + tail| - 12 {
      assert (front + tail)[i..i + 12] == tail[i - |front|..i - |front| + 12];
    }
  }

  /** Past its start, the marker can only overlap with itself on its last character. */
  lemma MarkerOverlap(name: string, namespace: string, i: int)
    requires |name| < i < |name| + 11
    ensures !Occurs(name + MARKER + namespace, MARKER, i)
  {
    var rest := name + MARKER + namespace;
    assert rest[i] == MARKER[i - |name|] != '-';
    assert i <= |rest| - 12 ==> rest[i..i + 12][0] == rest[i];
  }

  /**
   Reading back the name of a shadow service yields the service it was made for, whatever the service name,
   exactly when the marker does not occur in its namespace once a dash is put in front.
   */
  lemma ParseExact(mesh: string, id: ServiceId)
    ensures Parse(mesh, ShadowName(mesh, id)) == Some(id) <==> Parseable(id.namespace)
    ensures Parse(mesh, ShadowName(mesh, id)).Some?
  {
    var text := ShadowName(mesh, id);
    var rest := id.name + MARKER + id.namespace;
    var front, tail := id.name + MARKER[..11], "-" + id.namespace;
    assert text == (mesh + "-") + rest;
    assert text[|mesh| + 1..] == rest;
    assert rest[|id.name|..|id.name| + 12] == MARKER;
    assert Occurs(rest, MARKER, |id.name|);
    MarkerThenTail(id.name, id.namespace);
    var at := LastOccurrence(rest, MARKER, |text|).value;
    if at == |id.name| {
      assert rest[at + 12..] == id.namespace && rest[..at] == id.name;
      forall i | 0 <= i <= |tail| - 12
        ensures !Occurs(tail, MARKER, i)
      {
        OccursIn(front, tail, |front| + i);
      }
    } else {
      if at < |front| {
        MarkerOverlap(id.name, id.namespace, at);
      }
      OccursIn(front, tail, at);
      assert Contains(tail, MARKER);
      assert |rest[..at]| > |id.name|;
    }
  }

  /** Two services with parseable namespaces never share the name of their shadow service. */
  lemma ShadowNameInjective(mesh: string, a: ServiceId, b: ServiceId)
    requires Parseable(a.namespace) && Parseable(b.namespace) && ShadowName(mesh, a) == ShadowName(mesh, b)
    ensures a == b
  {
    ParseExact(mesh, a);
    ParseExact(mesh, b);
  }

  /** Without that condition they may: these two services always do. */
  lemma ShadowNameCollision(mesh: string, x: string, y: string, z: string)
    ensures var a, b := ServiceId(y + MARKER + z, x), ServiceId(z, x + MARKER + y);
            a != b && ShadowName(mesh, a) == ShadowName(mesh, b)
  {
    var a, b := ServiceId(y + MARKER + z, x), ServiceId(z, x + MARKER + y);
    assert |a.name| < |b.name|;
    assert ShadowName(mesh, a) == mesh + "-" + x + MARKER + y + MARKER + z;
    assert ShadowName(mesh, b) == mesh + "-" + x + MARKER + y + MARKER + z;
  }
}
