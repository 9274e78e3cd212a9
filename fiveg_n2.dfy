/**
 * The `fiveg_n2` relation interface library: the validator of the provider's application
 * databag, the requirer's read side (accessors and the `n2_information_available` event) and
 * the provider's write side (`set_n2_information`).
 */
module FivegN2 {
  import opened Wrappers
  import PyStr

  const AmfHostnameKey := "amf_hostname"
  const NgappPortKey := "ngapp_port"

  /** A Python value handed to the validator: a `str`, an `int`, or `None`. */
  datatype Value = Str(s: string) | Int(i: int) | Null

  /** Python's `str(v)`. */
  function ToPyStr(v: Value): string
  {
    match v
    case Str(s) => s
    case Int(i) => PyStr.IntToStr(i)
    case Null => "None"
  }

  /** What pydantic accepts for an `int` field: an int, or a str holding an integer numeral. */
  predicate IsIntField(v: Value)
  {
    v.Int? || (v.Str? && PyStr.IsIntLiteral(v.s))
  }

  /**
   * `data_is_valid`: the databag parses as `ProviderAppData`, that is `amf_hostname` is a str
   * and `ngapp_port` is an int field. Keys the schema does not name are ignored.
   */
  function DataIsValid(data: map<string, Value>): (r: bool)
    ensures r ==> AmfHostnameKey in data && NgappPortKey in data
    ensures r ==> data[AmfHostnameKey].Str? && data[NgappPortKey] != Null
    ensures AmfHostnameKey in data && NgappPortKey in data && data[AmfHostnameKey].Str? && data[NgappPortKey].Int? ==> r
  {
    && AmfHostnameKey in data && data[AmfHostnameKey].Str?
    && NgappPortKey in data && IsIntField(data[NgappPortKey])
  }

  /** A databag read from Juju: every value is a str. */
  function StrMap(bag: map<string, string>): (r: map<string, Value>)
    ensures r.Keys == bag.Keys
    ensures forall k :: k in bag ==> r[k] == Str(bag[k])
  {
    map k | k in bag :: Str(bag[k])
  }

  /** A Juju relation as the ops model shows it: an id, the remote application, and one
    * databag per application or unit name. */
  class Relation {
    const id: int
    const app: Option<string>
    var data: map<string, map<string, string>>

    constructor (id: int, app: Option<string>, data: map<string, map<string, string>>)
      ensures this.id == id && this.app == app && this.data == data
    {
      this.id := id;
      this.app := app;
      this.data := data;
    }
  }

  /** The databag of `owner` (empty when Juju holds none for it yet). */
  function Bag(data: map<string, map<string, string>>, owner: string): map<string, string>
  {
    if owner in data then data[owner] else map[]
  }

  // ---------------------------------------------------------------- requirer side

  /**
   * `N2Requires._get_remote_app_relation_data` once the relation is known (the event's, or
   * what `GetRelation` found): the remote application's databag, or `None` when there is no
   * relation, no remote application, or the data does not validate.
   */
  function RemoteAppRelationData(relation: Relation?): (r: Option<map<string, string>>)
    reads relation
    ensures relation == null ==> r.None?
    ensures relation != null && relation.app.None? ==> r.None?
    ensures r.Some? ==> relation != null && relation.app.Some?
                        && r.value == Bag(relation.data, relation.app.value)
                        && DataIsValid(StrMap(r.value))
    ensures relation != null && relation.app.Some? ==>
              (r.Some? <==> DataIsValid(StrMap(Bag(relation.data, relation.app.value))))
  {
    if relation == null then None
    else if relation.app.None? then None
    else
      var remote := Bag(relation.data, relation.app.value);
      if DataIsValid(StrMap(remote)) then Some(remote) else None
  }

  /** What a lookup by relation name yields: a value, or ops' `TooManyRelatedAppsError`. */
  datatype Lookup<+T> = Found(value: T) | TooManyRelatedApps

  /**
   * `Model.get_relation(relation_name)` as `_get_remote_app_relation_data` calls it, given
   * every relation established under the name: none gives `None`, exactly one gives that
   * relation, and more than one raises.
   */
  function GetRelation(related: seq<Relation>): (r: Lookup<Relation?>)
    ensures r.TooManyRelatedApps? <==> |related| > 1
    ensures |related| == 0 ==> r == Found(null)
    ensures |related| == 1 ==> r == Found(related[0])
  {
    if |related| == 0 then Found(null)
    else if |related| == 1 then Found(related[0])
    else TooManyRelatedApps
  }

  /**
   * `N2Requires.amf_hostname`: the lookup error propagates; otherwise the validated remote
   * databag's hostname, if any. `related` is every relation under the interface's name.
   */
  function AmfHostname(related: seq<Relation>): (r: Lookup<Option<string>>)
    reads related
    ensures r.TooManyRelatedApps? <==> |related| > 1
    ensures |related| == 0 ==> r == Found(None)
    ensures |related| == 1 ==>
              r.Found? && (r.value.Some? <==> RemoteAppRelationData(related[0]).Some?)
    ensures |related| == 1 && r.Found? && r.value.Some? ==>
              r.value.value == RemoteAppRelationData(related[0]).value[AmfHostnameKey]
  {
    match GetRelation(related)
    case TooManyRelatedApps => TooManyRelatedApps
    case Found(relation) =>
      match RemoteAppRelationData(relation)
      case None => Found(None)
      case Some(remote) => Found(Some(remote[AmfHostnameKey]))
  }

  /** `N2Requires.ngapp_port`: as `AmfHostname`, with the port numeral parsed by `int()`. */
  function NgappPort(related: seq<Relation>): (r: Lookup<Option<int>>)
    reads related
    ensures r.TooManyRelatedApps? <==> |related| > 1
    ensures |related| == 0 ==> r == Found(None)
    ensures |related| == 1 ==>
              r.Found? && (r.value.Some? <==> RemoteAppRelationData(related[0]).Some?)
    ensures |related| == 1 && r.Found? && r.value.Some? ==>
              r.value.value == PyStr.ParseInt(RemoteAppRelationData(related[0]).value[NgappPortKey])
  {
    match GetRelation(related)
    case TooManyRelatedApps => TooManyRelatedApps
    case Found(relation) =>
      match RemoteAppRelationData(relation)
      case None => Found(None)
      case Some(remote) =>
        assert StrMap(remote)[NgappPortKey] == Str(remote[NgappPortKey]);
        Found(Some(PyStr.ParseInt(remote[NgappPortKey])))
  }

  /** The `n2_information_available` event: it carries the raw databag strings. */
  datatype N2InformationAvailable = N2InformationAvailable(amfHostname: string, ngappPort: string)

  /** `N2Requires._on_relation_changed`: the event it emits, if any. */
  function OnRelationChanged(relation: Relation): (event: Option<N2InformationAvailable>)
    reads relation
    ensures event.Some? <==> relation.app.Some? && DataIsValid(StrMap(Bag(relation.data, relation.app.value)))
    ensures event.Some? ==>
              var remote := Bag(relation.data, relation.app.value);
              event.value == N2InformationAvailable(remote[AmfHostnameKey], remote[NgappPortKey])
  {
    match RemoteAppRelationData(relation)
    case None => None
    case Some(remote) => Some(N2InformationAvailable(remote[AmfHostnameKey], remote[NgappPortKey]))
  }

  // ---------------------------------------------------------------- provider side

  datatype N2Error =
    | NotLeader           // RuntimeError: unit must be leader
    | RelationNotCreated  // RuntimeError: relation not created yet
    | InvalidRelationData // ValueError

  /** A databag after `update({"amf_hostname": hostname, "ngapp_port": port})`. */
  function PublishedBag(bag: map<string, string>, hostname: string, port: string): (r: map<string, string>)
    ensures r.Keys == bag.Keys + {AmfHostnameKey, NgappPortKey}
    ensures r[AmfHostnameKey] == hostname && r[NgappPortKey] == port
    ensures forall k :: k in bag && k != AmfHostnameKey && k != NgappPortKey ==> r[k] == bag[k]
  {
    bag[AmfHostnameKey := hostname][NgappPortKey := port]
  }

  /** A relation's databags after the provider application `app` published to it. */
  function PublishTo(data: map<string, map<string, string>>, app: string, hostname: string, port: string)
    : map<string, map<string, string>>
  {
    data[app := PublishedBag(Bag(data, app), hostname, port)]
  }

  lemma PublishToIdempotent(data: map<string, map<string, string>>, app: string, hostname: string, port: string)
    ensures PublishTo(PublishTo(data, app, hostname, port), app, hostname, port) == PublishTo(data, app, hostname, port)
  {
    var once := PublishTo(data, app, hostname, port);
    assert PublishedBag(Bag(once, app), hostname, port) == Bag(once, app);
  }

  class N2Provides {
    /** The provider's own application name (`self.charm.app`). */
    const app: string
    const relationName: string

    constructor (app: string, relationName: string)
      ensures this.app == app && this.relationName == relationName
    {
      this.app := app;
      this.relationName := relationName;
    }

    /**
     * `set_n2_information`: leader and relation guards, then validation, then the same update
     * of the application databag of every relation under the name. `relations` is
     * `self.model.relations[self.relation_name]`.
     */
    method SetN2Information(isLeader: bool, relations: seq<Relation>, amfHostname: Value, ngappPort: Value)
      returns (outcome: Outcome<N2Error>)
      modifies relations
      ensures !isLeader ==> outcome == Fail(NotLeader)
      ensures isLeader && relations == [] ==> outcome == Fail(RelationNotCreated)
      ensures isLeader && relations != []
              && !DataIsValid(map[AmfHostnameKey := amfHostname, NgappPortKey := ngappPort])
              ==> outcome == Fail(InvalidRelationData)
      ensures isLeader && relations != []
              && DataIsValid(map[AmfHostnameKey := amfHostname, NgappPortKey := ngappPort])
              ==> outcome == Pass
      ensures outcome.Fail? ==> forall r :: r in relations ==> r.data == old(r.data)
      ensures outcome.Pass? ==>
                forall r :: r in relations ==>
                  r.data == PublishTo(old(r.data), app, ToPyStr(amfHostname), ToPyStr(ngappPort))
    {
      if !isLeader {
        return Fail(NotLeader);
      }
      if relations == [] {
        return Fail(RelationNotCreated);
      }
      if !DataIsValid(map[AmfHostnameKey := amfHostname, NgappPortKey := ngappPort]) {
        return Fail(InvalidRelationData);
      }
      var hostname, port := ToPyStr(amfHostname), ToPyStr(ngappPort);
      var i := 0;
      while i < |relations|
        invariant 0 <= i <= |relations|
        invariant forall r :: r in relations[..i] ==> r.data == PublishTo(old(r.data), app, hostname, port)
        invariant forall r :: r in relations && r !in relations[..i] ==> r.data == old(r.data)
      {
        var relation := relations[i];
        if relation in relations[..i] {
          PublishToIdempotent(old(relation.data), app, hostname, port);
        }
        relation.data := PublishTo(relation.data, app, hostname, port);
        assert relations[..i + 1] == relations[..i] + [relation];
        i := i + 1;
      }
      assert relations[..i] == relations;
      return Pass;
    }
  }

  // ---------------------------------------------------------------- properties

  /**
   * A databag read from Juju validates exactly when it holds both keys and the port is an
   * integer numeral; keys the schema does not name play no part.
   */
  lemma StrBagValidIff(bag: map<string, string>)
    ensures DataIsValid(StrMap(bag)) <==>
              AmfHostnameKey in bag && NgappPortKey in bag && PyStr.IsIntLiteral(bag[NgappPortKey])
  {
    var data := StrMap(bag);
    if AmfHostnameKey in bag && NgappPortKey in bag {
      assert data[AmfHostnameKey] == Str(bag[AmfHostnameKey]);
      assert data[NgappPortKey] == Str(bag[NgappPortKey]);
    }
  }

  /** The library's own test case: a port of "invalid_port123" does not validate. */
  lemma InvalidPortRejected(hostname: string)
    ensures !DataIsValid(map[AmfHostnameKey := Str(hostname), NgappPortKey := Str("invalid_port123")])
  {
    var port := "invalid_port123";
    assert !PyStr.IsDigit(port[0]);
  }

  /**
   * Round trip: what the provider writes for hostname `h` and int port `p` validates on the
   * requirer side, whatever else the databag holds, and reads back as `h` and `int(str(p)) == p`.
   */
  lemma PublishedBagReadsBack(bag: map<string, string>, hostname: string, port: int)
    ensures var published := PublishedBag(bag, hostname, PyStr.IntToStr(port));
            && DataIsValid(StrMap(published))
            && published[AmfHostnameKey] == hostname
            && PyStr.ParseInt(published[NgappPortKey]) == port
  {
    PyStr.ParseIntOfIntToStr(port);
  }

  /**
   * The requirer whose single relation's remote application databag is what the provider
   * published sees the published hostname and port through its accessors and gets
   * `n2_information_available`.
   */
  lemma RequirerReadsPublished(relation: Relation, bag: map<string, string>, hostname: string, port: int)
    requires relation.app.Some?
    requires Bag(relation.data, relation.app.value) == PublishedBag(bag, hostname, PyStr.IntToStr(port))
    ensures AmfHostname([relation]) == Found(Some(hostname))
    ensures NgappPort([relation]) == Found(Some(port))
    ensures OnRelationChanged(relation) == Some(N2InformationAvailable(hostname, PyStr.IntToStr(port)))
  {
    PublishedBagReadsBack(bag, hostname, port);
  }
}
