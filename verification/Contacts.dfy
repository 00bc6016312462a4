/** The contact list google-auth.js builds from a People API
    `connections.list` response: keep the people that have both `names` and
    `phoneNumbers`, and turn each into `{nombre, numero}` from the first
    name and the digits of the first phone number.

    Absent JSON fields are `None`. An empty array is truthy in JavaScript,
    so a person with `names: []` or `phoneNumbers: []` passes the filter and
    the map then reads a property of `undefined`: that TypeError is the
    `Failure` of the result. */
module Contacts {
  import opened Wrappers
  import opened JsText

  datatype Name = Name(displayName: Option<string>)
  datatype PhoneNumber = PhoneNumber(value: Option<string>)
  datatype Person = Person(names: Option<seq<Name>>, phoneNumbers: Option<seq<PhoneNumber>>)

  /** `nombre` is `undefined` (and dropped by `JSON.stringify`) when the
      first name has no `displayName`. */
  datatype Contacto = Contacto(nombre: Option<string>, numero: string)

  /** Reading a property of `undefined` inside the map callback. */
  datatype ExtractError = TypeError

  /** The filter callback `person.names && person.phoneNumbers`. */
  predicate HasNamesAndPhones(p: Person) {
    p.names.Some? && p.phoneNumbers.Some?
  }

  /** A kept person the map callback can read without throwing. */
  predicate Readable(p: Person)
    requires HasNamesAndPhones(p)
  {
    |p.names.value| > 0 && |p.phoneNumbers.value| > 0 && p.phoneNumbers.value[0].value.Some?
  }

  /** `connections.filter(person => person.names && person.phoneNumbers)`. */
  function KeepWithNamesAndPhones(conns: seq<Person>): (kept: seq<Person>)
    ensures |kept| <= |conns|
    ensures forall k :: 0 <= k < |kept| ==> HasNamesAndPhones(kept[k])
  {
    if conns == [] then []
    else (if HasNamesAndPhones(conns[0]) then [conns[0]] else []) + KeepWithNamesAndPhones(conns[1..])
  }

  /** The filter keeps every connection that has both fields and nothing
      else. */
  lemma {:induction false} KeepMembers(conns: seq<Person>)
    ensures forall p :: p in KeepWithNamesAndPhones(conns) <==> p in conns && HasNamesAndPhones(p)
  {
    if conns != [] {
      KeepMembers(conns[1..]);
      assert conns == [conns[0]] + conns[1..];
    }
  }

  /** The map callback for one kept person. */
  function ToContacto(p: Person): (r: Result<Contacto, ExtractError>)
    requires HasNamesAndPhones(p)
    ensures r.Success? <==> Readable(p)
    ensures r.Success? ==> r.value.nombre == p.names.value[0].displayName
    ensures r.Success? ==> r.value.numero == StripNonDigits(p.phoneNumbers.value[0].value.value)
  {
    if |p.names.value| == 0 then Failure(TypeError)
    else
      var nombre := p.names.value[0].displayName;
      if |p.phoneNumbers.value| == 0 then Failure(TypeError)
      else match p.phoneNumbers.value[0].value
        case None => Failure(TypeError)
        case Some(v) => Success(Contacto(nombre, StripNonDigits(v)))
  }

  /** `.map(...)` over the kept people; the first throw aborts it. */
  function MapToContactos(kept: seq<Person>): (r: Result<seq<Contacto>, ExtractError>)
    requires forall k :: 0 <= k < |kept| ==> HasNamesAndPhones(kept[k])
    ensures r.Success? <==> forall k :: 0 <= k < |kept| ==> Readable(kept[k])
    ensures r.Success? ==> |r.value| == |kept|
    ensures r.Success? ==> forall k :: 0 <= k < |kept| ==> ToContacto(kept[k]) == Success(r.value[k])
  {
    if kept == [] then Success([])
    else
      match ToContacto(kept[0])
      case Failure(e) => Failure(e)
      case Success(c) =>
        match MapToContactos(kept[1..])
        case Failure(e) => Failure(e)
        case Success(rest) => Success([c] + rest)
  }

  /** `const connections = res.data.connections || []` followed by the
      filter and the map. */
  function GetContactos(connections: Option<seq<Person>>): (r: Result<seq<Contacto>, ExtractError>)
    ensures connections == None ==> r == Success([])
    ensures r.Success? ==> |r.value| <= |connections.GetOr([])|
    ensures r.Success? ==> forall c :: c in r.value ==> AllDigits(c.numero)
    ensures r.Success? <==>
      forall p :: p in connections.GetOr([]) && HasNamesAndPhones(p) ==> Readable(p)
  {
    var kept := KeepWithNamesAndPhones(connections.GetOr([]));
    KeepMembers(connections.GetOr([]));
    assert (forall p :: p in kept ==> Readable(p)) <==> (forall k :: 0 <= k < |kept| ==> Readable(kept[k]));
    var r := MapToContactos(kept);
    assert r.Success? ==> forall c :: c in r.value ==>
      exists k :: 0 <= k < |kept| && Success(c) == ToContacto(kept[k]);
    r
  }

  /** Positions, from `from` on, of the connections the filter keeps. */
  function KeptIndices(conns: seq<Person>, from: nat): (idx: seq<nat>)
    requires from <= |conns|
    ensures forall k :: 0 <= k < |idx| ==> from <= idx[k] < |conns| && HasNamesAndPhones(conns[idx[k]])
    decreases |conns| - from
  {
    if from == |conns| then []
    else (if HasNamesAndPhones(conns[from]) then [from] else []) + KeptIndices(conns, from + 1)
  }

  predicate Increasing(idx: seq<nat>) {
    forall k, l :: 0 <= k < l < |idx| ==> idx[k] < idx[l]
  }

  /** The kept positions are increasing. */
  lemma {:induction false} KeptIndicesIncreasing(conns: seq<Person>, from: nat)
    requires from <= |conns|
    ensures Increasing(KeptIndices(conns, from))
    decreases |conns| - from
  {
    if from < |conns| {
      KeptIndicesIncreasing(conns, from + 1);
      var rest := KeptIndices(conns, from + 1);
      if HasNamesAndPhones(conns[from]) {
        var idx := [from] + rest;
        assert KeptIndices(conns, from) == idx;
        forall k, l | 0 <= k < l < |idx|
          ensures idx[k] < idx[l]
        {
          assert idx[l] == rest[l - 1] && from + 1 <= rest[l - 1];
          if k > 0 {
            assert idx[k] == rest[k - 1] && rest[k - 1] < rest[l - 1];
          } else {
            assert idx[k] == from;
          }
        }
      } else {
        assert KeptIndices(conns, from) == rest;
      }
    }
  }

  /** Every position whose connection has both fields is a kept position. */
  lemma {:induction false} KeptIndicesComplete(conns: seq<Person>, from: nat)
    requires from <= |conns|
    ensures var idx := KeptIndices(conns, from);
      forall j :: from <= j < |conns| && HasNamesAndPhones(conns[j]) ==> j in idx
    decreases |conns| - from
  {
    if from < |conns| {
      KeptIndicesComplete(conns, from + 1);
      var rest := KeptIndices(conns, from + 1);
      var idx := KeptIndices(conns, from);
      assert idx == (if HasNamesAndPhones(conns[from]) then [from] else []) + rest;
      forall j | from <= j < |conns| && HasNamesAndPhones(conns[j])
        ensures j in idx
      {
        if j == from {
          assert idx[0] == from;
        } else {
          assert j in rest;
        }
      }
    }
  }

  /** The filter keeps exactly the connections at the kept positions, in
      the order they come in. */
  lemma {:induction false} KeepAtKeptIndices(conns: seq<Person>, from: nat)
    requires from <= |conns|
    ensures var kept := KeepWithNamesAndPhones(conns[from..]);
      var idx := KeptIndices(conns, from);
      |kept| == |idx| && forall k :: 0 <= k < |idx| ==> kept[k] == conns[idx[k]]
    decreases |conns| - from
  {
    if from < |conns| {
      KeepAtKeptIndices(conns, from + 1);
      assert conns[from..][0] == conns[from];
      assert conns[from..][1..] == conns[from + 1..];
    }
  }

  /** The k-th contact, one at a time. */
  lemma {:induction false} ContactAt(conns: seq<Person>, out: seq<Contacto>, k: nat)
    requires GetContactos(Some(conns)) == Success(out)
    requires k < |KeptIndices(conns, 0)|
    ensures var i := KeptIndices(conns, 0)[k];
      && i < |conns| && HasNamesAndPhones(conns[i]) && Readable(conns[i]) && k < |out|
      && out[k].nombre == conns[i].names.value[0].displayName
      && out[k].numero == StripNonDigits(conns[i].phoneNumbers.value[0].value.value)
  {
    assert conns[0..] == conns;
    KeepAtKeptIndices(conns, 0);
    var kept := KeepWithNamesAndPhones(conns);
    var idx := KeptIndices(conns, 0);
    assert kept[k] == conns[idx[k]];
    assert Success(out[k]) == ToContacto(kept[k]);
  }

  /** Each output contact comes from a connection that has names and phone
      numbers, the contacts follow the connections' order, and every such
      connection gives one: `nombre` is its first `displayName` and
      `numero` the digits of its first phone number. */
  lemma {:induction false} ContactosFollowConnections(conns: seq<Person>, out: seq<Contacto>)
    requires GetContactos(Some(conns)) == Success(out)
    ensures var idx := KeptIndices(conns, 0);
      && |idx| == |out|
      && Increasing(idx)
      && (forall j :: 0 <= j < |conns| && HasNamesAndPhones(conns[j]) ==> j in idx)
      && forall k :: 0 <= k < |idx| ==>
           idx[k] < |conns| && HasNamesAndPhones(conns[idx[k]]) && Readable(conns[idx[k]])
           && out[k].nombre == conns[idx[k]].names.value[0].displayName
           && out[k].numero == StripNonDigits(conns[idx[k]].phoneNumbers.value[0].value.value)
  {
    KeptIndicesIncreasing(conns, 0);
    KeptIndicesComplete(conns, 0);
    var idx := KeptIndices(conns, 0);
    assert conns[0..] == conns;
    KeepAtKeptIndices(conns, 0);
    forall k | 0 <= k < |idx| {
      ContactAt(conns, out, k);
    }
  }
}
