/**
 * The versioned checkpoint file. JSON is a tree (a struct and a map are both objects), its text and the checksum
 * over it are an arbitrary function of the tree, and how one device group is written is left to a codec.
 */
module Codec {
  import opened Text

  datatype Json = Null | Num(n: nat) | Str(s: string) | Arr(items: seq<Json>) | Obj(fields: map<string, Json>)

  // ------------------------------------------------------------------- content

  datatype CheckpointedDevice = CheckpointedDevice(requests: seq<string>, pool: string, name: string, cdi: seq<string>,
                                                   shareID: Option<string>, metadata: Option<Json>)

  datatype Part = Part(info: Option<Json>, device: Option<CheckpointedDevice>)

  datatype PreparedDevice = PreparedDevice(channel: Option<Part>, daemon: Option<Part>)

  datatype Group = Group(devices: seq<PreparedDevice>, config: Json)

  datatype State = Unset | PrepareStarted | PrepareCompleted

  datatype ClaimV2 = ClaimV2(state: State, status: Json, devices: seq<Group>, name: string, namespace: string)

  datatype ClaimV1 = ClaimV1(status: Json, devices: seq<Group>)

  /** A Go map, which may be nil. */
  datatype GoMap<V> = NilMap | GoMap(m: map<string, V>) {
    function Entries(): map<string, V> { if NilMap? then map[] else m }
  }

  datatype V1 = V1(claims: GoMap<ClaimV1>)

  datatype V2 = V2(checksum: nat, claims: GoMap<ClaimV2>, bootID: string)

  datatype Checkpoint = Checkpoint(checksum: nat, v1: Option<V1>, v2: Option<V2>)

  /** How device groups are written and read, and the checksum of a tree. */
  datatype Format = Format(enc: Group -> Json, dec: Json -> Option<Group>, hash: Json -> nat)

  ghost predicate Faithful(f: Format) { forall g :: f.dec(f.enc(g)) == Some(g) }

  // ---------------------------------------------------------------- conversion

  function ToV2(v1: V1): V2
  {
    V2(0, GoMap(map u | u in v1.claims.Entries() ::
      ClaimV2(PrepareCompleted, v1.claims.Entries()[u].status, v1.claims.Entries()[u].devices, "", "")), "")
  }

  function ToV1(v2: V2): V1
  {
    V1(GoMap(map u | u in v2.claims.Entries() && v2.claims.Entries()[u].state.PrepareCompleted? ::
      ClaimV1(v2.claims.Entries()[u].status, v2.claims.Entries()[u].devices)))
  }

  function Latest(cp: Checkpoint): V2
  {
    var v2 := if cp.v2.Some? then cp.v2.value else if cp.v1.Some? then ToV2(cp.v1.value) else V2(0, NilMap, "");
    if v2.claims.NilMap? then v2.(claims := GoMap(map[])) else v2
  }

  /** The version 2 part has exactly the claims of the version 1 part, all of them completed. */
  ghost predicate HasCompleted(claims: map<string, ClaimV2>, of: map<string, ClaimV1>)
  {
    claims.Keys == of.Keys
    && forall u :: u in of ==> claims[u] == ClaimV2(PrepareCompleted, of[u].status, of[u].devices, "", "")
  }

  /** The version 1 part has exactly the completed claims. */
  ghost predicate HasThoseCompleted(claims: map<string, ClaimV1>, of: map<string, ClaimV2>)
  {
    && (forall u :: u in claims <==> u in of && of[u].state == PrepareCompleted)
    && forall u :: u in claims ==> claims[u] == ClaimV1(of[u].status, of[u].devices)
  }

  method ConvertToV2(v1: V1) returns (v2: V2)
    ensures v2 == ToV2(v1)
    ensures v2.claims.GoMap? && v2.bootID == "" && HasCompleted(v2.claims.m, v1.claims.Entries())
  {
    var claims: map<string, ClaimV2> := map[];
    var todo := v1.claims.Entries().Keys;
    while todo != {}
      invariant todo <= v1.claims.Entries().Keys
      invariant claims == map u | u in v1.claims.Entries() && u !in todo ::
                            ClaimV2(PrepareCompleted, v1.claims.Entries()[u].status, v1.claims.Entries()[u].devices,
                              "", "")
      decreases |todo|
    {
      var u :| u in todo;
      todo := todo - {u};
      claims := claims[u := ClaimV2(PrepareCompleted, v1.claims.Entries()[u].status, v1.claims.Entries()[u].devices,
        "", "")];
    }
    assert claims == ToV2(v1).claims.m;
    v2 := V2(0, GoMap(claims), "");
  }

  method ConvertToV1(v2: V2) returns (v1: V1)
    ensures v1 == ToV1(v2)
    ensures v1.claims.GoMap? && HasThoseCompleted(v1.claims.m, v2.claims.Entries())
  {
    var claims: map<string, ClaimV1> := map[];
    var todo := v2.claims.Entries().Keys;
    while todo != {}
      invariant todo <= v2.claims.Entries().Keys
      invariant claims == map u | u in v2.claims.Entries() && u !in todo
          && v2.claims.Entries()[u].state.PrepareCompleted? ::
                            ClaimV1(v2.claims.Entries()[u].status, v2.claims.Entries()[u].devices)
      decreases |todo|
    {
      var u :| u in todo;
      todo := todo - {u};
      if v2.claims.Entries()[u].state != PrepareCompleted { continue; }
      claims := claims[u := ClaimV1(v2.claims.Entries()[u].status, v2.claims.Entries()[u].devices)];
    }
    assert claims == ToV1(v2).claims.m;
    v1 := V1(GoMap(claims));
  }

  /** Up and down again loses nothing. */
  lemma V1SurvivesV2(v1: V1)
    ensures ToV1(ToV2(v1)).claims.Entries() == v1.claims.Entries()
  {
  }

  /**
   * Down and up again keeps exactly the completed entries; one of them comes back unchanged exactly when it has no
   * name, as Prepare writes it.
   */
  lemma CompletedSurviveV1(v2: V2, u: string)
    ensures var back := ToV2(ToV1(v2)).claims.Entries();
            && (u in back <==> u in v2.claims.Entries() && v2.claims.Entries()[u].state.PrepareCompleted?)
            && (u in back ==>
              (back[u] == v2.claims.Entries()[u] <==>
                v2.claims.Entries()[u].name == "" && v2.claims.Entries()[u].namespace == ""))
  {
  }

  // ------------------------------------------------------------------ encoding

  /** A field that is left out when empty. */
  function Unless(empty: bool, name: string, value: Json): map<string, Json>
  {
    if empty then map[] else map[name := value]
  }

  function EncGroups(f: Format, gs: seq<Group>): Json { Arr(seq(|gs|, i requires 0 <= i < |gs| => f.enc(gs[i]))) }

  function EncState(s: State): Json
  {
    Str(match s case Unset => "" case PrepareStarted => "PrepareStarted" case PrepareCompleted => "PrepareCompleted")
  }

  function EncClaimV1(f: Format, c: ClaimV1): Json
  {
    Obj(map["status" := c.status] + Unless(c.devices == [], "preparedDevices", EncGroups(f, c.devices)))
  }

  function EncClaimV2(f: Format, c: ClaimV2): Json
  {
    Obj(map["checkpointState" := EncState(c.state), "status" := c.status]
      + Unless(c.devices == [], "preparedDevices", EncGroups(f, c.devices))
        + Unless(c.name == "", "name", Str(c.name)) + Unless(c.namespace == "", "namespace", Str(c.namespace)))
  }

  function ClaimV1Writer(f: Format): ClaimV1 -> Json { c => EncClaimV1(f, c) }

  function ClaimV2Writer(f: Format): ClaimV2 -> Json { c => EncClaimV2(f, c) }

  function EncMap<V>(m: map<string, V>, enc: V -> Json): Json { Obj(map u | u in m :: enc(m[u])) }

  function EncV1(f: Format, v: V1): Json
  {
    var m := v.claims.Entries();
    Obj(Unless(m == map[], "preparedClaims", EncMap(m, ClaimV1Writer(f))))
  }

  function EncV2(f: Format, v: V2): Json
  {
    var m := v.claims.Entries();
    Obj(map["checksum" := Num(v.checksum)] + Unless(m == map[], "preparedClaims", EncMap(m, ClaimV2Writer(f)))
        + Unless(v.bootID == "", "nodeBootID", Str(v.bootID)))
  }

  /** The fields a reader of version 1 knows. */
  function V1Fields(f: Format, checksum: nat, v1: Option<V1>): (m: map<string, Json>)
    ensures "v2" !in m
  {
    map["checksum" := Num(checksum)] + if v1.Some? then map["v1" := EncV1(f, v1.value)] else map[]
  }

  function Enc(f: Format, cp: Checkpoint): Json
  {
    Obj(V1Fields(f, cp.checksum, cp.v1) + if cp.v2.Some? then map["v2" := EncV2(f, cp.v2.value)] else map[])
  }

  // ------------------------------------------------------------------ decoding

  /** What a struct can be read from; null leaves it as it is. */
  predicate IsStruct(j: Json) { j.Obj? || j.Null? }

  /** A field with a value; null counts as no value, whatever the type of the field. */
  function Field(j: Json, name: string): Option<Json>
  {
    if j.Obj? && name in j.fields && !j.fields[name].Null? then Some(j.fields[name]) else None
  }

  function StringField(j: Json, name: string): Option<string>
  {
    match Field(j, name) case None => Some("") case Some(Str(s)) => Some(s) case Some(_) => None
  }

  function NumField(j: Json, name: string): Option<nat>
  {
    match Field(j, name) case None => Some(0) case Some(Num(n)) => Some(n) case Some(_) => None
  }

  function DecGroups(f: Format, j: Json): Option<seq<Group>>
  {
    match Field(j, "preparedDevices")
    case None => Some([])
    case Some(Arr(items)) =>
      if forall i :: 0 <= i < |items| ==> f.dec(items[i]).Some? then
        Some(seq(|items|, i requires 0 <= i < |items| => f.dec(items[i]).value))
      else None
    case Some(_) => None
  }

  function DecState(s: string): Option<State>
  {
    if s == "" then Some(Unset) else if s == "PrepareStarted" then Some(PrepareStarted)
      else if s == "PrepareCompleted" then Some(PrepareCompleted) else None
  }

  function StatusField(j: Json): Json { match Field(j, "status") case None => Null case Some(s) => s }

  function DecClaimV1(f: Format, j: Json): Option<ClaimV1>
  {
    if IsStruct(j) && DecGroups(f, j).Some? then Some(ClaimV1(StatusField(j), DecGroups(f, j).value)) else None
  }

  function DecClaimV2(f: Format, j: Json): Option<ClaimV2>
  {
    if IsStruct(j) && DecGroups(f, j).Some? && StringField(j, "name").Some? && StringField(j, "namespace").Some?
       && StringField(j, "checkpointState").Some? && DecState(StringField(j, "checkpointState").value).Some?
    then Some(ClaimV2(DecState(StringField(j, "checkpointState").value).value, StatusField(j), DecGroups(f, j).value,
                      StringField(j, "name").value, StringField(j, "namespace").value))
    else None
  }

  /** A map of claims; a missing one is nil. */
  function DecClaims<V>(j: Json, dec: Json -> Option<V>): Option<GoMap<V>>
  {
    match Field(j, "preparedClaims")
    case None => Some(NilMap)
    case Some(Obj(m)) => if forall u :: u in m ==> dec(m[u]).Some? then Some(GoMap(map u | u in m :: dec(m[u]).value))
      else None
    case Some(_) => None
  }

  function ClaimV1Reader(f: Format): Json -> Option<ClaimV1> { j => DecClaimV1(f, j) }

  function ClaimV2Reader(f: Format): Json -> Option<ClaimV2> { j => DecClaimV2(f, j) }

  function DecV1(f: Format, j: Json): Option<V1>
  {
    var claims := DecClaims(j, ClaimV1Reader(f));
    if j.Obj? && claims.Some? then Some(V1(claims.value)) else None
  }

  function DecV2(f: Format, j: Json): Option<V2>
  {
    var claims := DecClaims(j, ClaimV2Reader(f));
    if j.Obj? && claims.Some? && NumField(j, "checksum").Some? && StringField(j, "nodeBootID").Some?
    then Some(V2(NumField(j, "checksum").value, claims.value, StringField(j, "nodeBootID").value))
    else None
  }

  /** json.Unmarshal into an empty Checkpoint. */
  function Dec(f: Format, j: Json): Option<Checkpoint>
  {
    var v1 := Field(j, "v1");
    var v2 := Field(j, "v2");
    if !IsStruct(j) || NumField(j, "checksum").None? then None
    else if v1.Some? && DecV1(f, v1.value).None? then None
    else if v2.Some? && DecV2(f, v2.value).None? then None
    else Some(Checkpoint(NumField(j, "checksum").value, if v1.Some? then DecV1(f, v1.value) else None,
                         if v2.Some? then DecV2(f, v2.value) else None))
  }

  /** A reader from before version 2 existed: it never looks at v2. */
  function DecV1Only(f: Format, j: Json): Option<Checkpoint>
  {
    if !j.Obj? then None else Dec(f, Obj(j.fields - {"v2"}))
  }

  // ------------------------------------------------------------------ checksums

  ghost predicate VerifiesV1(f: Format, cp: Checkpoint)
  {
    cp.checksum == f.hash(Enc(f, cp.(checksum := 0, v2 := None)))
  }

  ghost predicate VerifiesV2(f: Format, cp: Checkpoint)
  {
    cp.v2.Some? ==> cp.v2.value.checksum == f.hash(EncV2(f, cp.v2.value.(checksum := 0)))
  }

  /** What MarshalCheckpoint writes: the latest version, the same downgraded, and a checksum over each. */
  function Marshalled(f: Format, cp: Checkpoint): Checkpoint
  {
    var v2 := Latest(cp);
    var v1 := ToV1(v2);
    Checkpoint(f.hash(Enc(f, Checkpoint(0, Some(v1), None))), Some(v1),
      Some(v2.(checksum := f.hash(EncV2(f, v2.(checksum := 0))))))
  }

  // ------------------------------------------------------------- main results

  /** Two values of one Go map: nil and empty write the same. */
  predicate Same(a: Checkpoint, b: Checkpoint)
  {
    && a.checksum == b.checksum && a.v1.Some? == b.v1.Some? && a.v2.Some? == b.v2.Some?
    && (a.v1.Some? ==> a.v1.value.claims.Entries() == b.v1.value.claims.Entries())
    && (a.v2.Some? ==> a.v2.value.claims.Entries() == b.v2.value.claims.Entries()
                       && a.v2.value.checksum == b.v2.value.checksum && a.v2.value.bootID == b.v2.value.bootID)
  }

  lemma GroupsRoundTrip(f: Format, gs: seq<Group>, j: Json)
    requires Faithful(f) && j.Obj? && Field(j, "preparedDevices") == if gs == [] then None else Some(EncGroups(f, gs))
    ensures DecGroups(f, j) == Some(gs)
  {
    if gs != [] {
      var items := EncGroups(f, gs).items;
      assert seq(|items|, i requires 0 <= i < |items| => f.dec(items[i]).value) == gs;
    }
  }

  lemma ClaimV1RoundTrip(f: Format, c: ClaimV1)
    requires Faithful(f)
    ensures DecClaimV1(f, EncClaimV1(f, c)) == Some(c)
  {
    GroupsRoundTrip(f, c.devices, EncClaimV1(f, c));
  }

  lemma ClaimV2RoundTrip(f: Format, c: ClaimV2)
    requires Faithful(f)
    ensures DecClaimV2(f, EncClaimV2(f, c)) == Some(c)
  {
    ClaimV2Fields(f, c);
    GroupsRoundTrip(f, c.devices, EncClaimV2(f, c));
  }

  lemma ClaimV2Names(f: Format, c: ClaimV2)
    ensures var fields := EncClaimV2(f, c).fields;
            && "checkpointState" in fields && fields["checkpointState"] == EncState(c.state)
            && "status" in fields && fields["status"] == c.status
            && (if c.devices == [] then "preparedDevices" !in fields
                else "preparedDevices" in fields && fields["preparedDevices"] == EncGroups(f, c.devices))
            && (if c.name == "" then "name" !in fields else "name" in fields && fields["name"] == Str(c.name))
            && (if c.namespace == "" then "namespace" !in fields
                else "namespace" in fields && fields["namespace"] == Str(c.namespace))
  {
  }

  lemma ClaimV2Fields(f: Format, c: ClaimV2)
    ensures var j := EncClaimV2(f, c);
            && Field(j, "preparedDevices") == (if c.devices == [] then None else Some(EncGroups(f, c.devices)))
            && StringField(j, "checkpointState") == Some(EncState(c.state).s) && StatusField(j) == c.status
            && StringField(j, "name") == Some(c.name) && StringField(j, "namespace") == Some(c.namespace)
  {
    ClaimV2Names(f, c);
  }

  lemma ClaimsRoundTrip<V(!new)>(j: Json, m: map<string, V>, enc: V -> Json, dec: Json -> Option<V>)
    requires forall u :: u in m ==> dec(enc(m[u])) == Some(m[u])
    requires Field(j, "preparedClaims") == if m == map[] then None else Some(EncMap(m, enc))
    ensures DecClaims(j, dec).Some? && DecClaims(j, dec).value.Entries() == m
  {
  }

  lemma V1RoundTrip(f: Format, v: V1)
    requires Faithful(f)
    ensures DecV1(f, EncV1(f, v)).Some? && DecV1(f, EncV1(f, v)).value.claims.Entries() == v.claims.Entries()
  {
    var m := v.claims.Entries();
    forall u | u in m ensures DecClaimV1(f, EncClaimV1(f, m[u])) == Some(m[u]) { ClaimV1RoundTrip(f, m[u]); }
    ClaimsRoundTrip(EncV1(f, v), m, ClaimV1Writer(f), ClaimV1Reader(f));
  }

  lemma V2Fields(f: Format, v: V2)
    ensures var j, m := EncV2(f, v), v.claims.Entries();
            && Field(j, "preparedClaims") == (if m == map[] then None else Some(EncMap(m, ClaimV2Writer(f))))
            && NumField(j, "checksum") == Some(v.checksum) && StringField(j, "nodeBootID") == Some(v.bootID)
  {
    var fields, m := EncV2(f, v).fields, v.claims.Entries();
    assert "checksum" in fields && fields["checksum"] == Num(v.checksum);
    assert if m == map[] then "preparedClaims" !in fields
           else "preparedClaims" in fields && fields["preparedClaims"] == EncMap(m, ClaimV2Writer(f));
    assert if v.bootID == "" then "nodeBootID" !in fields
           else "nodeBootID" in fields && fields["nodeBootID"] == Str(v.bootID);
  }

  /** The names in the file, which other versions of the plugin rely on: those of the JSON tags. */
  lemma WrittenNames(f: Format, cp: Checkpoint, u: string)
    requires cp.v2.Some? && u in cp.v2.value.claims.Entries()
    ensures var j, c := Enc(f, cp), cp.v2.value.claims.Entries()[u];
            && j.Obj? && "checksum" in j.fields && j.fields["checksum"] == Num(cp.checksum)
            && (cp.v1.Some? ==> "v1" in j.fields && j.fields["v1"] == EncV1(f, cp.v1.value))
            && "v2" in j.fields && j.fields["v2"].Obj? && "preparedClaims" in j.fields["v2"].fields
            && "checksum" in j.fields["v2"].fields && j.fields["v2"].fields["checksum"] == Num(cp.v2.value.checksum)
            && (cp.v2.value.bootID != "" ==>
                  && "nodeBootID" in j.fields["v2"].fields
                  && j.fields["v2"].fields["nodeBootID"] == Str(cp.v2.value.bootID))
            && var claims := j.fields["v2"].fields["preparedClaims"];
            && claims.Obj? && claims.fields.Keys == cp.v2.value.claims.Entries().Keys && claims.fields[u].Obj?
            && var fields := claims.fields[u].fields;
            && "checkpointState" in fields && fields["checkpointState"].Str?
            && (c.state.PrepareStarted? ==> fields["checkpointState"].s == "PrepareStarted")
            && (c.state.PrepareCompleted? ==> fields["checkpointState"].s == "PrepareCompleted")
            && "status" in fields && fields["status"] == c.status
            && (c.devices != [] ==> "preparedDevices" in fields)
            && (c.name != "" ==> "name" in fields && fields["name"] == Str(c.name))
            && (c.namespace != "" ==> "namespace" in fields && fields["namespace"] == Str(c.namespace))
  {
    var fields, claims := EncV2(f, cp.v2.value).fields, cp.v2.value.claims.Entries();
    assert "preparedClaims" in fields && fields["preparedClaims"] == EncMap(claims, ClaimV2Writer(f));
    ClaimV2Names(f, claims[u]);
  }

  /** A claim's device groups are written in order, each as the codec writes it. */
  lemma WrittenGroups(f: Format, c: ClaimV2, i: nat)
    requires i < |c.devices|
    ensures var fields := EncClaimV2(f, c).fields;
            && "preparedDevices" in fields && fields["preparedDevices"].Arr?
            && |fields["preparedDevices"].items| == |c.devices|
            && fields["preparedDevices"].items[i] == f.enc(c.devices[i])
  {
    ClaimV2Names(f, c);
  }

  /** And those of version 1. */
  lemma WrittenNamesV1(f: Format, v: V1, u: string)
    requires u in v.claims.Entries()
    ensures var j, c := EncV1(f, v), v.claims.Entries()[u];
            && j.Obj? && "preparedClaims" in j.fields && j.fields["preparedClaims"].Obj?
            && var claims := j.fields["preparedClaims"].fields;
            && claims.Keys == v.claims.Entries().Keys && claims[u].Obj?
            && "status" in claims[u].fields && claims[u].fields["status"] == c.status
            && (c.devices != [] ==> "preparedDevices" in claims[u].fields)
  {
  }

  lemma V2RoundTrip(f: Format, v: V2)
    requires Faithful(f)
    ensures var d := DecV2(f, EncV2(f, v));
            d.Some? && d.value.claims.Entries() == v.claims.Entries() && d.value.checksum == v.checksum
              && d.value.bootID == v.bootID
  {
    var m := v.claims.Entries();
    forall u | u in m ensures DecClaimV2(f, EncClaimV2(f, m[u])) == Some(m[u]) { ClaimV2RoundTrip(f, m[u]); }
    V2Fields(f, v);
    ClaimsRoundTrip(EncV2(f, v), m, ClaimV2Writer(f), ClaimV2Reader(f));
  }

  lemma Fields(f: Format, cp: Checkpoint)
    ensures var j := Enc(f, cp);
            && NumField(j, "checksum") == Some(cp.checksum)
            && Field(j, "v1") == (if cp.v1.Some? then Some(EncV1(f, cp.v1.value)) else None)
            && Field(j, "v2") == (if cp.v2.Some? then Some(EncV2(f, cp.v2.value)) else None)
  {
    var fields := Enc(f, cp).fields;
    assert "checksum" in fields && fields["checksum"] == Num(cp.checksum);
    assert "v1" in fields <==> cp.v1.Some?;
    assert "v2" in fields <==> cp.v2.Some?;
  }

  /** Reading undoes writing, up to nil for empty. */
  lemma RoundTrip(f: Format, cp: Checkpoint)
    requires Faithful(f)
    ensures Dec(f, Enc(f, cp)).Some? && Same(Dec(f, Enc(f, cp)).value, cp)
  {
    Fields(f, cp);
    if cp.v1.Some? { V1RoundTrip(f, cp.v1.value); }
    if cp.v2.Some? { V2RoundTrip(f, cp.v2.value); }
  }

  /** The checksums do not see the difference between nil and empty, thanks to omitempty. */
  lemma SameVerifiesTheSame(f: Format, a: Checkpoint, b: Checkpoint)
    requires Same(a, b)
    ensures Enc(f, a) == Enc(f, b) && (VerifiesV1(f, a) <==> VerifiesV1(f, b))
    ensures (VerifiesV2(f, a) <==> VerifiesV2(f, b))
  {
  }

  /**
   * Whatever MarshalCheckpoint writes verifies under both checksums. It reads back with exactly the claims and the boot
   * ID of version 2 if there is one, with exactly the claims of version 1, completed, if there is only that, and
   * without claims otherwise; its version 1 has exactly the completed ones.
   */
  lemma WrittenVerifies(f: Format, cp: Checkpoint)
    requires Faithful(f)
    ensures var read := Dec(f, Enc(f, Marshalled(f, cp)));
            && read.Some? && VerifiesV1(f, read.value) && VerifiesV2(f, read.value)
            && read.value.v1.Some? && read.value.v2.Some?
            && var claims := read.value.v2.value.claims.Entries();
            && (cp.v2.Some? ==>
                  claims == cp.v2.value.claims.Entries() && read.value.v2.value.bootID == cp.v2.value.bootID)
            && (cp.v2.None? ==> read.value.v2.value.bootID == "")
            && (cp.v2.None? && cp.v1.Some? ==> HasCompleted(claims, cp.v1.value.claims.Entries()))
            && (cp.v2.None? && cp.v1.None? ==> claims == map[])
            && HasThoseCompleted(read.value.v1.value.claims.Entries(), claims)
  {
    RoundTrip(f, Marshalled(f, cp));
    SameVerifiesTheSame(f, Dec(f, Enc(f, Marshalled(f, cp))).value, Marshalled(f, cp));
  }

  /**
   * What the checksums are for: with a checksum function that tells any two trees apart, two files that both verify and
   * have one checksum have one content.
   */
  lemma ChecksumsTellContentsApart(f: Format, a: Checkpoint, b: Checkpoint)
    requires Faithful(f) && forall j, j' :: f.hash(j) == f.hash(j') ==> j == j'
    ensures VerifiesV1(f, a) && VerifiesV1(f, b) && a.checksum == b.checksum ==>
              && a.v1.Some? == b.v1.Some?
              && (a.v1.Some? ==> a.v1.value.claims.Entries() == b.v1.value.claims.Entries())
    ensures VerifiesV2(f, a) && VerifiesV2(f, b) && a.v2.Some? && b.v2.Some?
            && a.v2.value.checksum == b.v2.value.checksum ==>
              && a.v2.value.claims.Entries() == b.v2.value.claims.Entries()
              && a.v2.value.bootID == b.v2.value.bootID
  {
    RoundTrip(f, a.(checksum := 0, v2 := None));
    RoundTrip(f, b.(checksum := 0, v2 := None));
    if a.v2.Some? { V2RoundTrip(f, a.v2.value.(checksum := 0)); }
    if b.v2.Some? { V2RoundTrip(f, b.v2.value.(checksum := 0)); }
  }

  /** A reader that knows only version 1 verifies the same file, and finds the completed claims in it. */
  lemma WrittenVerifiesForV1Readers(f: Format, cp: Checkpoint)
    requires Faithful(f)
    ensures var read := DecV1Only(f, Enc(f, Marshalled(f, cp)));
            && read.Some? && read.value.v2.None? && VerifiesV1(f, read.value) && read.value.v1.Some?
            && var claims := read.value.v1.value.claims.Entries();
            && (cp.v2.Some? ==> HasThoseCompleted(claims, cp.v2.value.claims.Entries()))
            && (cp.v2.None? && cp.v1.Some? ==> claims == cp.v1.value.claims.Entries())
            && (cp.v2.None? && cp.v1.None? ==> claims == map[])
  {
    MarshalledForV1Readers(f, cp);
    var older := Marshalled(f, cp).(v2 := None);
    WithoutV2(f, Marshalled(f, cp));
    RoundTrip(f, older);
    var read := DecV1Only(f, Enc(f, Marshalled(f, cp)));
    Fields(f, older);
    SameVerifiesTheSame(f, read.value, older);
  }

  lemma MarshalledForV1Readers(f: Format, cp: Checkpoint)
    ensures Marshalled(f, cp).v1.Some?
    ensures var claims := Marshalled(f, cp).v1.value.claims.Entries();
            && (cp.v2.Some? ==> HasThoseCompleted(claims, cp.v2.value.claims.Entries()))
            && (cp.v2.None? && cp.v1.Some? ==> claims == cp.v1.value.claims.Entries())
            && (cp.v2.None? && cp.v1.None? ==> claims == map[])
  {
  }

  lemma WithoutV2(f: Format, cp: Checkpoint)
    ensures Obj(Enc(f, cp).fields - {"v2"}) == Enc(f, cp.(v2 := None))
  {
    var known := V1Fields(f, cp.checksum, cp.v1);
    if cp.v2.Some? { AddedAndRemoved(known, "v2", EncV2(f, cp.v2.value)); }
    assert known + map[] == known && known - {"v2"} == known;
  }

  lemma AddedAndRemoved(m: map<string, Json>, name: string, value: Json)
    requires name !in m
    ensures (m + map[name := value]) - {name} == m
  {
  }

  // ------------------------------------------------------------------- legacy

  datatype LegacyDevice = LegacyDevice(requestNames: seq<string>, pool: string, name: string, cdiIDs: seq<string>)

  datatype LegacyPart = LegacyPart(info: Option<Json>, device: Option<LegacyDevice>)

  datatype LegacyPrepared = LegacyPrepared(channel: Option<LegacyPart>, daemon: Option<LegacyPart>)

  datatype LegacyGroup = LegacyGroup(devices: seq<LegacyPrepared>, config: Json)

  /**
   * The 25.3.0-rc2 file: claims are bare lists of groups. Such a list is not nil here: a nil one is written as null,
   * which a reader takes for a claim of the current format without devices.
   */
  datatype Legacy = Legacy(checksum: nat, claims: Option<GoMap<seq<LegacyGroup>>>)

  datatype LegacyFormat = LegacyFormat(enc: LegacyGroup -> Json, dec: Json -> Option<LegacyGroup>)

  ghost predicate FaithfulLegacy(lf: LegacyFormat) { forall g :: lf.dec(lf.enc(g)) == Some(g) }

  function EncLegacyGroups(lf: LegacyFormat, gs: seq<LegacyGroup>): Json
  {
    Arr(seq(|gs|, i requires 0 <= i < |gs| => lf.enc(gs[i])))
  }

  function DecLegacyGroups(lf: LegacyFormat, j: Json): Option<seq<LegacyGroup>>
  {
    if j.Null? then Some([])
    else if j.Arr? && forall i :: 0 <= i < |j.items| ==> lf.dec(j.items[i]).Some? then
      Some(seq(|j.items|, i requires 0 <= i < |j.items| => lf.dec(j.items[i]).value))
    else None
  }

  function LegacyWriter(lf: LegacyFormat): seq<LegacyGroup> -> Json { gs => EncLegacyGroups(lf, gs) }

  function LegacyReader(lf: LegacyFormat): Json -> Option<seq<LegacyGroup>> { j => DecLegacyGroups(lf, j) }

  function EncLegacyClaims(lf: LegacyFormat, m: GoMap<seq<LegacyGroup>>): Json
  {
    Obj(Unless(m.Entries() == map[], "preparedClaims", EncMap(m.Entries(), LegacyWriter(lf))))
  }

  function EncLegacy(lf: LegacyFormat, l: Legacy): Json
  {
    Obj(map["checksum" := Num(l.checksum)] + if l.claims.Some?
      then map["v1" := EncLegacyClaims(lf, l.claims.value)] else map[])
  }

  function DecLegacy(lf: LegacyFormat, j: Json): Option<Legacy>
  {
    if !IsStruct(j) || NumField(j, "checksum").None? then None
    else
      match Field(j, "v1")
      case None => Some(Legacy(NumField(j, "checksum").value, None))
      case Some(v) =>
        if v.Obj? && DecClaims(v, LegacyReader(lf)).Some?
        then Some(Legacy(NumField(j, "checksum").value, Some(DecClaims(v, LegacyReader(lf)).value)))
        else None
  }

  predicate LegacyVerifies(f: Format, lf: LegacyFormat, l: Legacy)
  {
    l.checksum == f.hash(EncLegacy(lf, l.(checksum := 0)))
  }

  function ConvertPart(p: LegacyPart): Part
  {
    Part(p.info, if p.device.None? then None
                 else Some(CheckpointedDevice(p.device.value.requestNames, p.device.value.pool, p.device.value.name,
                   p.device.value.cdiIDs, None, None)))
  }

  function ConvertPrepared(d: LegacyPrepared): PreparedDevice
  {
    PreparedDevice(if d.channel.Some? then Some(ConvertPart(d.channel.value)) else None,
                   if d.daemon.Some? then Some(ConvertPart(d.daemon.value)) else None)
  }

  function ConvertGroup(g: LegacyGroup): Group
  {
    Group(seq(|g.devices|, i requires 0 <= i < |g.devices| => ConvertPrepared(g.devices[i])), g.config)
  }

  function ConvertGroups(gs: seq<LegacyGroup>): seq<Group>
  {
    seq(|gs|, i requires 0 <= i < |gs| => ConvertGroup(gs[i]))
  }

  /** Legacy claims carry no status and come back completed. */
  function LegacyToV1(m: GoMap<seq<LegacyGroup>>): Checkpoint
  {
    Checkpoint(0, Some(V1(GoMap(map u | u in m.Entries() :: ClaimV1(Null, ConvertGroups(m.Entries()[u]))))), None)
  }

  /** The two parts record the same thing. */
  predicate SamePart(before: Option<LegacyPart>, after: Option<Part>)
  {
    before.Some? == after.Some? &&
    (before.Some? ==>
       && before.value.info == after.value.info && before.value.device.Some? == after.value.device.Some?
       && (before.value.device.Some? ==>
             var d, e := before.value.device.value, after.value.device.value;
             d.requestNames == e.requests && d.pool == e.pool && d.name == e.name && d.cdiIDs == e.cdi
               && e.shareID.None? && e.metadata.None?))
  }

  predicate SameGroups(gs: seq<LegacyGroup>, hs: seq<Group>)
  {
    |gs| == |hs| && forall i :: 0 <= i < |gs| ==> SameGroup(gs[i], hs[i])
  }

  predicate SameGroup(g: LegacyGroup, h: Group)
  {
    && g.config == h.config && |g.devices| == |h.devices|
    && forall k :: 0 <= k < |g.devices| ==>
      SamePart(g.devices[k].channel, h.devices[k].channel) && SamePart(g.devices[k].daemon, h.devices[k].daemon)
  }

  /**
   * How UnmarshalCheckpoint ends: with a checkpoint, an error, or a nil dereference in the conversion of a legacy
   * file.
   */
  datatype Outcome = Read(cp: Checkpoint) | Refused | Panics

  function ReadOr(cp: Option<Checkpoint>): Outcome { match cp case Some(c) => Read(c) case None => Refused }

  /**
   * UnmarshalCheckpoint: the current format if it fits, else a legacy file with a good checksum, converted and
   * written anew.
   */
  function Unmarshal(f: Format, lf: LegacyFormat, j: Json): Outcome
  {
    if Dec(f, j).Some? then Read(Dec(f, j).value)
    else
      match DecLegacy(lf, j)
      case None => Refused
      case Some(l) =>
        if !LegacyVerifies(f, lf, l) then Refused
        else if l.claims.None? then Panics
        else ReadOr(Dec(f, Enc(f, Marshalled(f, LegacyToV1(l.claims.value)))))
  }

  lemma LegacyRoundTrip(lf: LegacyFormat, l: Legacy)
    requires FaithfulLegacy(lf)
    ensures var d := DecLegacy(lf, EncLegacy(lf, l));
            && d.Some? && d.value.checksum == l.checksum && d.value.claims.Some? == l.claims.Some?
            && (l.claims.Some? ==> d.value.claims.value.Entries() == l.claims.value.Entries())
  {
    if l.claims.Some? {
      var m := l.claims.value.Entries();
      forall u | u in m
        ensures LegacyReader(lf)(LegacyWriter(lf)(m[u])) == Some(m[u]) { LegacyGroupsRoundTrip(lf, m[u]); }
      ClaimsRoundTrip(EncLegacyClaims(lf, l.claims.value), m, LegacyWriter(lf), LegacyReader(lf));
    }
  }

  lemma LegacyGroupsRoundTrip(lf: LegacyFormat, gs: seq<LegacyGroup>)
    requires FaithfulLegacy(lf)
    ensures DecLegacyGroups(lf, EncLegacyGroups(lf, gs)) == Some(gs)
  {
    var items := EncLegacyGroups(lf, gs).items;
    assert seq(|items|, i requires 0 <= i < |items| => lf.dec(items[i]).value) == gs;
  }

  /** A legacy file with a claim in it never passes for a current one. */
  lemma LegacyIsNotCurrent(f: Format, lf: LegacyFormat, l: Legacy, u: string)
    requires l.claims.Some? && u in l.claims.value.Entries()
    ensures Dec(f, EncLegacy(lf, l)).None?
  {
  }

  /** A file without version 1, with a version 2 that does not decode, and with the checksum of an empty legacy file. */
  ghost predicate TripsTheConversion(f: Format, lf: LegacyFormat, j: Json)
  {
    && IsStruct(j) && Field(j, "v1").None? && Field(j, "v2").Some? && DecV2(f, Field(j, "v2").value).None?
    && NumField(j, "checksum") == Some(f.hash(EncLegacy(lf, Legacy(0, None))))
  }

  /**
   * The conversion dereferences a nil version 1 exactly on these files; a legacy file without claims otherwise passes
   * for a current one.
   */
  lemma ConversionPanicsExactlyWithoutV1(f: Format, lf: LegacyFormat, j: Json)
    ensures Unmarshal(f, lf, j).Panics? <==> TripsTheConversion(f, lf, j)
  {
    if DecLegacy(lf, j).Some? && DecLegacy(lf, j).value.claims.None? {
      var l := DecLegacy(lf, j).value;
      assert l.(checksum := 0) == Legacy(0, None);
    }
  }

  /** And there is such a file, for every checksum function. */
  lemma ConversionCanPanic(f: Format, lf: LegacyFormat)
    ensures var c := f.hash(Obj(map["checksum" := Num(0)]));
            Unmarshal(f, lf, Obj(map["checksum" := Num(c), "v2" := Str("x")])).Panics?
  {
    var c := f.hash(Obj(map["checksum" := Num(0)]));
    var j := Obj(map["checksum" := Num(c), "v2" := Str("x")]);
    assert EncLegacy(lf, Legacy(0, None)) == Obj(map["checksum" := Num(0)]);
    assert Field(j, "v2") == Some(Str("x")) && Field(j, "v1").None? && Field(j, "checksum") == Some(Num(c));
    ConversionPanicsExactlyWithoutV1(f, lf, j);
  }

  lemma ConvertedClaims(m: GoMap<seq<LegacyGroup>>)
    ensures var v1 := LegacyToV1(m).v1.value.claims.Entries();
            && v1.Keys == m.Entries().Keys
            && forall u :: u in v1 ==> v1[u].status == Null && SameGroups(m.Entries()[u], v1[u].devices)
  {
  }

  /** The same claims, completed and with every device field, but without a status or a name. */
  predicate IsConverted(legacy: map<string, seq<LegacyGroup>>, claims: map<string, ClaimV2>)
  {
    claims.Keys == legacy.Keys
    && forall u :: u in claims ==>
      && claims[u].state.PrepareCompleted? && claims[u].status == Null && claims[u].name == ""
      && claims[u].namespace == "" && SameGroups(legacy[u], claims[u].devices)
  }

  /**
   * What the fallback makes of a legacy file: it is refused if its checksum is wrong, else converted and read as if
   * just written.
   */
  lemma LegacyIsConverted(f: Format, lf: LegacyFormat, l: Legacy, u: string) returns (m: GoMap<seq<LegacyGroup>>)
    requires FaithfulLegacy(lf) && l.claims.Some? && u in l.claims.value.Entries()
    ensures m.Entries() == l.claims.value.Entries()
    ensures Unmarshal(f, lf, EncLegacy(lf, l)) ==
            if LegacyVerifies(f, lf, l) then ReadOr(Dec(f, Enc(f, Marshalled(f, LegacyToV1(m))))) else Refused
  {
    LegacyIsNotCurrent(f, lf, l, u);
    LegacyRoundTrip(lf, l);
    var d := DecLegacy(lf, EncLegacy(lf, l)).value;
    m := d.claims.value;
    LegacyVerifiesTheSame(f, lf, d, l);
    FallsBack(f, lf, EncLegacy(lf, l), d);
  }

  lemma FallsBack(f: Format, lf: LegacyFormat, j: Json, d: Legacy)
    requires Dec(f, j).None? && DecLegacy(lf, j) == Some(d) && d.claims.Some?
    ensures Unmarshal(f, lf, j) ==
            if LegacyVerifies(f, lf, d) then ReadOr(Dec(f, Enc(f, Marshalled(f, LegacyToV1(d.claims.value)))))
              else Refused
  {
  }

  lemma LegacyVerifiesTheSame(f: Format, lf: LegacyFormat, a: Legacy, b: Legacy)
    requires a.checksum == b.checksum && a.claims.Some? && b.claims.Some?
    requires a.claims.value.Entries() == b.claims.value.Entries()
    ensures LegacyVerifies(f, lf, a) <==> LegacyVerifies(f, lf, b)
  {
  }

  /**
   * A legacy file with a good checksum keeps every claim and every device field, its claims count as completed, and
   * the result verifies.
   */
  lemma LegacySurvives(f: Format, lf: LegacyFormat, l: Legacy, u: string)
    requires Faithful(f) && FaithfulLegacy(lf) && l.claims.Some? && u in l.claims.value.Entries()
    ensures var read := Unmarshal(f, lf, EncLegacy(lf, l));
            && (if l.checksum == f.hash(EncLegacy(lf, l.(checksum := 0))) then read.Read? else read.Refused?)
            && (read.Read? ==>
                  && VerifiesV1(f, read.cp) && VerifiesV2(f, read.cp) && read.cp.v2.Some?
                  && IsConverted(l.claims.value.Entries(), read.cp.v2.value.claims.Entries()))
  {
    var m := LegacyIsConverted(f, lf, l, u);
    ConvertedIsRead(f, m);
  }

  lemma ConvertedIsRead(f: Format, m: GoMap<seq<LegacyGroup>>)
    requires Faithful(f)
    ensures var read := ReadOr(Dec(f, Enc(f, Marshalled(f, LegacyToV1(m)))));
            && read.Read? && VerifiesV1(f, read.cp) && VerifiesV2(f, read.cp) && read.cp.v2.Some?
            && IsConverted(m.Entries(), read.cp.v2.value.claims.Entries())
  {
    ConvertedClaims(m);
    WrittenVerifies(f, LegacyToV1(m));
  }

  // ------------------------------------------------------- the shared structs

  class V2Object {
    var checksum: nat
    var claims: GoMap<ClaimV2>
    var bootID: string

    constructor (v: V2)
      ensures Value() == v
    {
      checksum, claims, bootID := v.checksum, v.claims, v.bootID;
    }

    function Value(): V2
      reads this
    {
      V2(checksum, claims, bootID)
    }
  }

  class CheckpointObject {
    var checksum: nat
    var v1: Option<V1>
    var v2: V2Object?

    constructor (checksum: nat, v1: Option<V1>, v2: V2Object?)
      ensures this.checksum == checksum && this.v1 == v1 && this.v2 == v2
    {
      this.checksum, this.v1, this.v2 := checksum, v1, v2;
    }

    function Owned(): set<object> reads this { if v2 == null then {} else {v2} }

    function Value(): Checkpoint
      reads this, Owned()
    {
      Checkpoint(checksum, v1, if v2 == null then None else Some(v2.Value()))
    }

    /** The result shares the version 2 part with the receiver, so making its nil map shows there too. */
    method ToLatestVersion() returns (latest: CheckpointObject)
      modifies Owned()
      ensures fresh(latest) && latest.checksum == 0 && latest.v1.None? && latest.v2 != null
      ensures if v2 == null then fresh(latest.v2) else latest.v2 == v2
      ensures latest.v2.Value() == Latest(old(Value())) && latest.v2.claims.GoMap?
      ensures v2 != null ==>
          && latest.v2.claims.m == old(v2.claims.Entries())
          && latest.v2.bootID == old(v2.bootID) && latest.v2.checksum == old(v2.checksum)
      ensures v2 == null ==> latest.v2.bootID == ""
      ensures v2 == null && v1.Some? ==> HasCompleted(latest.v2.claims.m, v1.value.claims.Entries())
      ensures v2 == null && v1.None? ==> latest.v2.claims.m == map[]
    {
      latest := new CheckpointObject(0, None, null);
      if v2 != null {
        latest.v2 := v2;
      } else if v1.Some? {
        var up := ConvertToV2(v1.value);
        latest.v2 := new V2Object(up);
      } else {
        latest.v2 := new V2Object(V2(0, NilMap, ""));
      }
      if latest.v2.claims.NilMap? {
        latest.v2.claims := GoMap(map[]);
      }
    }

    /** The checksum over everything but version 2; version 2 is back in place afterwards. */
    method SetChecksumV1(f: Format)
      modifies this
      ensures v1 == old(v1) && v2 == old(v2) && checksum == f.hash(Enc(f, Checkpoint(0, v1, None)))
    {
      var saved := v2;
      v2 := null;
      checksum := 0;
      checksum := f.hash(Enc(f, Value()));
      v2 := saved;
    }

    method SetChecksumV2(f: Format)
      requires v2 != null
      modifies v2
      ensures v2.claims == old(v2.claims) && v2.bootID == old(v2.bootID)
      ensures v2.checksum == f.hash(EncV2(f, v2.Value().(checksum := 0)))
    {
      v2.checksum := 0;
      v2.checksum := f.hash(EncV2(f, v2.Value()));
    }

    /**
     * Writes the latest version and its downgrade; of the receiver only a version 2 part is touched: its checksum,
     * and a nil map.
     */
    method MarshalCheckpoint(f: Format) returns (j: Json)
      modifies Owned()
      ensures j == Enc(f, Marshalled(f, old(Value())))
      ensures v2 != null ==>
          && v2.claims == GoMap(old(v2.claims.Entries())) && v2.bootID == old(v2.bootID)
          && v2.checksum == f.hash(EncV2(f, V2(0, v2.claims, v2.bootID)))
      ensures Faithful(f) && v2 != null ==>
          var read := Dec(f, j);
          && read.Some? && read.value.v2.Some? && read.value.v2.value.claims.Entries() == old(v2.claims.Entries())
          && read.value.v2.value.bootID == old(v2.bootID)
    {
      if Faithful(f) { WrittenVerifies(f, Value()); }
      var latest := ToLatestVersion();
      var down := ConvertToV1(latest.v2.Value());
      latest.v1 := Some(down);
      latest.SetChecksumV1(f);
      latest.SetChecksumV2(f);
      j := Enc(f, latest.Value());
    }

    method VerifyChecksumV1(f: Format) returns (ok: bool)
      modifies this
      ensures checksum == old(checksum) && v1 == old(v1) && v2 == old(v2)
      ensures ok <==> old(checksum) == f.hash(Enc(f, Checkpoint(0, old(v1), None)))
    {
      var ck, saved := checksum, v2;
      v2, checksum := null, 0;
      ok := ck == f.hash(Enc(f, Value()));
      checksum, v2 := ck, saved;
    }

    method VerifyChecksumV2(f: Format) returns (ok: bool)
      modifies Owned()
      ensures Value() == old(Value())
      ensures ok <==> (v2 != null ==> old(v2.checksum) == f.hash(EncV2(f, V2(0, old(v2.claims), old(v2.bootID)))))
    {
      if v2 == null { return true; }
      var ck := v2.checksum;
      v2.checksum := 0;
      ok := ck == f.hash(EncV2(f, v2.Value()));
      v2.checksum := ck;
    }

    method VerifyChecksum(f: Format) returns (ok: bool)
      modifies this, Owned()
      ensures v2 == old(v2) && Value() == old(Value())
      ensures ok <==> VerifiesV1(f, old(Value())) && VerifiesV2(f, old(Value()))
      ensures ok <==>
          && old(checksum) == f.hash(Enc(f, Checkpoint(0, old(v1), None)))
          && (v2 != null ==> old(v2.checksum) == f.hash(EncV2(f, V2(0, old(v2.claims), old(v2.bootID)))))
    {
      ok := VerifyChecksumV1(f);
      if !ok { return false; }
      ok := VerifyChecksumV2(f);
    }

    /** Reads into an empty receiver; a legacy file is converted, marshalled and read again. */
    method UnmarshalCheckpoint(f: Format, lf: LegacyFormat, j: Json) returns (o: Outcome)
      requires Faithful(f)
      modifies this
      ensures o == Unmarshal(f, lf, j)
      ensures Dec(f, j).Some? ==> o == Read(Dec(f, j).value)
      ensures Dec(f, j).None? && o.Read? ==>
          var l := DecLegacy(lf, j);
          l.Some? && l.value.checksum == f.hash(EncLegacy(lf, l.value.(checksum := 0)))
      ensures o.Read? ==> Value() == o.cp && (v2 == null || fresh(v2))
      decreases if Dec(f, j).Some? then 0 else 1
    {
      var direct := Dec(f, j);
      if direct.Some? {
        checksum, v1, v2 := direct.value.checksum, direct.value.v1, null;
        if direct.value.v2.Some? {
          v2 := new V2Object(direct.value.v2.value);
        }
        return Read(direct.value);
      }
      var legacy := DecLegacy(lf, j);
      if legacy.None? { return Refused; }
      if !LegacyVerifies(f, lf, legacy.value) { return Refused; }
      if legacy.value.claims.None? { return Panics; }
      var conv := LegacyToV1(legacy.value.claims.value);
      var cpconv := new CheckpointObject(0, conv.v1, null);
      var data := cpconv.MarshalCheckpoint(f);
      WrittenVerifies(f, conv);
      o := UnmarshalCheckpoint(f, lf, data);
    }
  }
}
