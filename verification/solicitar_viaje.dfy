/** The trip request form: its initial contents, the change handler that routes a dotted input
    name such as `origen.ciudad` into the nested address, and the payload it submits. */
module SolicitarViaje {
  import opened Common

  /** The form state: the two nested addresses and the top-level fields, each keyed by name. */
  datatype Form = Form(origen: map<string, string>, destino: map<string, string>, fields: map<string, string>)

  /** Where an input's value is stored. */
  datatype Slot = InOrigen(key: string) | InDestino(key: string) | TopLevel(key: string)

  const AddressKeys: set<string> := {"direccion", "ciudad", "provincia"}
  const TopLevelKeys: set<string> :=
    {"tipoDestino", "fechaProgramada", "tipoCarga", "peso", "camionesSolicitados", "notas"}

  const EmptyAddress: map<string, string> := map["direccion" := "", "ciudad" := "", "provincia" := ""]

  /** The form as the page first shows it: empty addresses, a port destination, grain cargo. */
  const Initial := Form(
    EmptyAddress,
    EmptyAddress,
    map["tipoDestino" := "puerto", "fechaProgramada" := "", "tipoCarga" := "grano",
        "peso" := "", "camionesSolicitados" := "", "notas" := ""])

  /** Every field the page renders is present. */
  predicate WellFormed(f: Form) {
    AddressKeys <= f.origen.Keys && AddressKeys <= f.destino.Keys && TopLevelKeys <= f.fields.Keys
  }

  predicate StartsWith(s: string, prefix: string) {
    |prefix| <= |s| && s[..|prefix|] == prefix
  }

  /** The characters of `s` before its first `.`, or all of `s` when it has none. */
  function UpToDot(s: string): (r: string)
    ensures r <= s && '.' !in r
    ensures |r| < |s| ==> s[|r|] == '.'
  {
    if |s| == 0 || s[0] == '.' then "" else [s[0]] + UpToDot(s[1..])
  }

  /** `name.split('.')[1]` for a name known to contain a dot at `dot`, the first one. */
  function SecondSegment(name: string, dot: nat): string
    requires dot < |name|
  {
    UpToDot(name[dot + 1..])
  }

  /** Where `handleChange` stores the value of the input called `name`. */
  function SlotOf(name: string): Slot {
    if StartsWith(name, "origen.") then InOrigen(SecondSegment(name, 6))
    else if StartsWith(name, "destino.") then InDestino(SecondSegment(name, 7))
    else TopLevel(name)
  }

  function Read(f: Form, slot: Slot): Option<string> {
    match slot
    case InOrigen(k) => if k in f.origen then Some(f.origen[k]) else None
    case InDestino(k) => if k in f.destino then Some(f.destino[k]) else None
    case TopLevel(k) => if k in f.fields then Some(f.fields[k]) else None
  }

  /** `handleChange` for the input `name` now holding `value`. A bare `origen` or `destino`
      would replace a nested address by a string; no input of the page has those names. */
  function HandleChange(f: Form, name: string, value: string): (f': Form)
    requires name != "origen" && name != "destino"
    ensures Read(f', SlotOf(name)) == Some(value)
    ensures forall slot :: slot != SlotOf(name) ==> Read(f', slot) == Read(f, slot)
    ensures WellFormed(f) ==> WellFormed(f')
  {
    match SlotOf(name)
    case InOrigen(k) => f.(origen := f.origen[k := value])
    case InDestino(k) => f.(destino := f.destino[k := value])
    case TopLevel(k) => f.(fields := f.fields[k := value])
  }

  /** The routing rule on names: an `origen.` name writes the origin key named by the segment
      after the first dot, a `destino.` name the destination key likewise, and any other name
      the top-level field of that name; so each leaves the other two parts of the form as they
      were. */
  lemma RoutingByPrefix(f: Form, name: string, value: string)
    requires name != "origen" && name != "destino"
    ensures StartsWith(name, "origen.") ==>
              var k := UpToDot(name[7..]);
              var f' := HandleChange(f, name, value);
              k in f'.origen && f'.origen[k] == value && f'.destino == f.destino && f'.fields == f.fields
    ensures StartsWith(name, "destino.") ==>
              var k := UpToDot(name[8..]);
              var f' := HandleChange(f, name, value);
              k in f'.destino && f'.destino[k] == value && f'.origen == f.origen && f'.fields == f.fields
    ensures !StartsWith(name, "origen.") && !StartsWith(name, "destino.") ==>
              var f' := HandleChange(f, name, value);
              name in f'.fields && f'.fields[name] == value && f'.origen == f.origen && f'.destino == f.destino
  {
    if StartsWith(name, "destino.") {
      assert name[..7] != "origen." by {
        assert name[0] == 'd';
      }
    }
  }

  /** A name without dots is its own first segment. */
  lemma {:induction false} UpToDotOfDotless(s: string)
    requires '.' !in s
    ensures UpToDot(s) == s
  {
    if |s| > 0 {
      UpToDotOfDotless(s[1..]);
      assert s == [s[0]] + s[1..];
    }
  }

  /** The page's address inputs, `origen.<key>` and `destino.<key>` with a dot-free key, write
      exactly that key of that address, so typing into one and reading it back gives what was
      typed. */
  lemma AddressInputRoundTrip(f: Form, key: string, value: string)
    requires '.' !in key
    ensures SlotOf("origen." + key) == InOrigen(key)
    ensures SlotOf("destino." + key) == InDestino(key)
    ensures Read(HandleChange(f, "origen." + key, value), InOrigen(key)) == Some(value)
    ensures Read(HandleChange(f, "destino." + key, value), InDestino(key)) == Some(value)
  {
    var o := "origen." + key;
    var d := "destino." + key;
    assert o[..7] == "origen." && o[7..] == key;
    assert d[..8] == "destino." && d[8..] == key;
    assert d[..7] != "origen." by {
      assert d[0] == 'd';
    }
    UpToDotOfDotless(key);
  }

  lemma InitialIsWellFormed()
    ensures WellFormed(Initial)
    ensures Initial.fields["tipoDestino"] == "puerto" && Initial.fields["tipoCarga"] == "grano"
    ensures forall k :: k in AddressKeys ==> Initial.origen[k] == "" && Initial.destino[k] == ""
  {
  }

  /** The request body: the form spread, with the weight and the truck counts replaced by
      their parsed numbers. `parseFloat` and `parseInt` are parameters, so NaN and partial
      parses are whatever they return. */
  datatype Payload<N> = Payload(
    origen: map<string, string>,
    destino: map<string, string>,
    text: map<string, string>,
    numbers: map<string, N>)

  const NumericKeys: set<string> := {"peso", "camionesSolicitados", "camionesRecomendados"}

  /** `submitData`: every form field except the three numeric ones is sent as typed;
      `camionesRecomendados` is the same parsed value as `camionesSolicitados`. */
  function SubmitData<N>(f: Form, parseFloat: string -> N, parseInt: string -> N): (p: Payload<N>)
    requires WellFormed(f)
    ensures p.origen == f.origen && p.destino == f.destino
    ensures p.text.Keys == f.fields.Keys - NumericKeys
    ensures forall k :: k in p.text ==> p.text[k] == f.fields[k]
    ensures p.numbers.Keys == NumericKeys
    ensures p.numbers["peso"] == parseFloat(f.fields["peso"])
    ensures p.numbers["camionesSolicitados"] == parseInt(f.fields["camionesSolicitados"])
    ensures p.numbers["camionesRecomendados"] == p.numbers["camionesSolicitados"]
  {
    var solicitados := parseInt(f.fields["camionesSolicitados"]);
    Payload(
      f.origen,
      f.destino,
      map k | k in f.fields && k !in NumericKeys :: f.fields[k],
      map["peso" := parseFloat(f.fields["peso"]),
          "camionesSolicitados" := solicitados,
          "camionesRecomendados" := solicitados])
  }
}
