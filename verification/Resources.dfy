// Resources: the fixed SCIM fields plus free attributes, their JSON form, and cloning through it.
module Resources {
  import opened Text
  import opened Numbers
  import opened Values
  import opened Objects

  // An instant in seconds and nanoseconds; Go's zero time is the origin.
  datatype Time = Time(sec: int, nanos: nat) {
    predicate IsZero() { sec == 0 && nanos == 0 }
  }

  const ZERO_TIME := Time(0, 0)

  // RFC 3339 without fractions keeps whole seconds. The text itself is the number of seconds here.
  function FormatTime(t: Time): string { FormatNumber(Decimal(t.sec, 0)) }

  function ParseTime(s: string): Option<Time> {
    match ParseFloat(s)
    case Some(d) => if d.scale == 0 then Some(Time(d.coeff, 0)) else None
    case None => None
  }

  function Seconds(t: Time): Time { Time(t.sec, 0) }

  datatype Meta = Meta(resourceType: string, created: Time, lastModified: Time, location: string, version: string)

  const NO_META := Meta("", ZERO_TIME, ZERO_TIME, "", "")

  datatype Content = Content(schemas: seq<string>, id: string, externalId: string, meta: Meta, attributes: Object)

  // ----- the JSON form -----

  predicate Reserved(name: string) {
    var n := Lower(name);
    n == "schemas" || n == "id" || n == "externalid" || n == "meta"
  }

  // No free attribute carries the name of a fixed field, in any casing.
  ghost predicate Settled(attributes: Object) { forall k :: k in attributes ==> !Reserved(k) }

  function Strings(ss: seq<string>): seq<Json> { seq(|ss|, i requires 0 <= i < |ss| => Str(ss[i])) }

  // The fields in the order they are written; 5 and 4 stand for any other name.
  function MetaRank(k: string): nat {
    if k == "resourceType" then 0 else if k == "created" then 1 else if k == "lastModified" then 2
    else if k == "location" then 3 else if k == "version" then 4 else 5
  }

  function FixedRank(k: string): nat {
    if k == "schemas" then 0 else if k == "id" then 1 else if k == "externalId" then 2 else if k == "meta" then 3 else 4
  }

  function NonEmpty(s: string): Json { if s == "" then Null else Str(s) }

  function NonZero(t: Time): Json { if t.IsZero() then Null else Str(FormatTime(t)) }

  // The JSON form of one field; Null when it is left out.
  function MetaField(m: Meta, k: string): Json {
    if k == "resourceType" then NonEmpty(m.resourceType)
    else if k == "created" then NonZero(m.created)
    else if k == "lastModified" then NonZero(m.lastModified)
    else if k == "location" then NonEmpty(m.location)
    else NonEmpty(m.version)
  }

  // The object with one more entry, unless the entry is left out.
  function With(o: Object, k: string, v: Json): Object { if v == Null then o else o[k := v] }

  function MetaObject(m: Meta): Object {
    var o1 := With(map[], "resourceType", MetaField(m, "resourceType"));
    var o2 := With(o1, "created", MetaField(m, "created"));
    var o3 := With(o2, "lastModified", MetaField(m, "lastModified"));
    var o4 := With(o3, "location", MetaField(m, "location"));
    With(o4, "version", MetaField(m, "version"))
  }

  function FixedField(c: Content, k: string): Json {
    if k == "schemas" then (if c.schemas == [] then Null else Arr(Strings(c.schemas)))
    else if k == "id" then NonEmpty(c.id)
    else if k == "externalId" then NonEmpty(c.externalId)
    else if c.meta == NO_META then Null
    else Obj(MetaObject(c.meta))
  }

  // The fixed fields override free attributes of the same name.
  function ToObject(c: Content): Object {
    var o1 := With(c.attributes, "schemas", FixedField(c, "schemas"));
    var o2 := With(o1, "id", FixedField(c, "id"));
    var o3 := With(o2, "externalId", FixedField(c, "externalId"));
    With(o3, "meta", FixedField(c, "meta"))
  }

  // ----- reading it back -----

  function StringOr(v: Json, fallback: string): string { if v.Str? then v.s else fallback }

  function TimeOr(v: Json, fallback: Time): Time {
    if v.Str? && ParseTime(v.s).Some? then ParseTime(v.s).value else fallback
  }

  function OnlyStrings(items: seq<Json>): seq<string> {
    if items == [] then []
    else (if items[0].Str? then [items[0].s] else []) + OnlyStrings(items[1..])
  }

  // One entry of the meta object, whatever the casing of its key.
  function ReadMetaEntry(m: Meta, k: string, v: Json): Meta {
    var n := Lower(k);
    if n == "resourcetype" then m.(resourceType := StringOr(v, m.resourceType))
    else if n == "created" then m.(created := TimeOr(v, m.created))
    else if n == "lastmodified" then m.(lastModified := TimeOr(v, m.lastModified))
    else if n == "location" then m.(location := StringOr(v, m.location))
    else if n == "version" then m.(version := StringOr(v, m.version))
    else m
  }

  ghost function ReadMeta(o: Object): Meta {
    Meta(StringOr(Lookup(o, "resourceType"), ""), TimeOr(Lookup(o, "created"), ZERO_TIME),
         TimeOr(Lookup(o, "lastModified"), ZERO_TIME), StringOr(Lookup(o, "location"), ""),
         StringOr(Lookup(o, "version"), ""))
  }

  ghost function FreeAttributes(o: Object): Object { map k | k in o && !Reserved(k) :: o[k] }

  ghost function FromObject(o: Object): Content {
    var s, m := Lookup(o, "schemas"), Lookup(o, "meta");
    Content(if s.Arr? then OnlyStrings(s.items) else [], StringOr(Lookup(o, "id"), ""),
            StringOr(Lookup(o, "externalId"), ""), if m.Obj? then ReadMeta(m.fields) else NO_META, FreeAttributes(o))
  }

  // What a clone keeps: everything, with times cut to seconds.
  function Truncated(c: Content): Content {
    c.(meta := c.meta.(created := Seconds(c.meta.created), lastModified := Seconds(c.meta.lastModified)))
  }

  // ----- the round trip through JSON -----

  lemma TimeRoundTrip(t: Time)
    ensures ParseTime(FormatTime(t)) == Some(Seconds(t))
  {
    ParsePrinted(Decimal(t.sec, 0));
  }

  lemma {:induction false} StringsRoundTrip(ss: seq<string>)
    ensures OnlyStrings(Strings(ss)) == ss
  {
    if ss != [] {
      StringsRoundTrip(ss[1..]);
      assert Strings(ss)[1..] == Strings(ss[1..]);
    }
  }

  // Reading an object that has exactly one key folding to name.
  lemma LookupOnly(o: Object, k: string, name: string)
    requires EqualFold(k, name) && forall l :: l in o && EqualFold(l, name) ==> l == k
    ensures Lookup(o, name) == if k in o then o[k] else Null
  {
    if HasKey(o, name) { assert KeyOf(o, name) == k; }
  }

  // The names of the fixed fields differ in more than case, and the reader knows them all.
  lemma NamesDiffer(k: string, l: string)
    requires EqualFold(k, l)
    ensures MetaRank(k) < 5 && MetaRank(l) < 5 ==> k == l
    ensures FixedRank(k) < 4 && FixedRank(l) < 4 ==> k == l
  {
  }

  lemma ReservedNames(k: string)
    ensures Reserved(k) <==> exists l :: FixedRank(l) < 4 && EqualFold(k, l)
  {
    assert Lower("schemas") == "schemas" && Lower("id") == "id" && Lower("externalId") == "externalid"
      && Lower("meta") == "meta";
    assert FixedRank("schemas") == 0 && FixedRank("id") == 1 && FixedRank("externalId") == 2 && FixedRank("meta") == 3;
  }

  // The meta object after its first n fields.
  ghost predicate MetaUpTo(o: Object, m: Meta, n: nat) {
    (forall k :: k in o <==> MetaRank(k) < n && MetaField(m, k) != Null)
      && (forall k :: k in o ==> o[k] == MetaField(m, k))
  }

  lemma MetaUpToStep(o: Object, m: Meta, k: string)
    requires MetaUpTo(o, m, MetaRank(k)) && MetaRank(k) < 5
    ensures MetaUpTo(With(o, k, MetaField(m, k)), m, MetaRank(k) + 1)
  {
    assert forall l :: MetaRank(l) == MetaRank(k) ==> l == k;
  }

  lemma MetaObjectEntries(m: Meta)
    ensures MetaUpTo(MetaObject(m), m, 5)
  {
    MetaUpToStep(map[], m, "resourceType");
    var o1 := With(map[], "resourceType", MetaField(m, "resourceType"));
    MetaUpToStep(o1, m, "created");
    var o2 := With(o1, "created", MetaField(m, "created"));
    MetaUpToStep(o2, m, "lastModified");
    var o3 := With(o2, "lastModified", MetaField(m, "lastModified"));
    MetaUpToStep(o3, m, "location");
    MetaUpToStep(With(o3, "location", MetaField(m, "location")), m, "version");
  }

  lemma MetaLookup(m: Meta, k: string)
    requires MetaRank(k) < 5
    ensures Lookup(MetaObject(m), k) == MetaField(m, k)
  {
    var o := MetaObject(m);
    MetaObjectEntries(m);
    forall l | l in o && EqualFold(l, k) ensures l == k { NamesDiffer(l, k); }
    LookupOnly(o, k, k);
  }

  lemma FieldRoundTrip(s: string, t: Time)
    ensures StringOr(NonEmpty(s), "") == s && TimeOr(NonZero(t), ZERO_TIME) == Seconds(t)
  {
    TimeRoundTrip(t);
  }

  lemma MetaRoundTrip(m: Meta)
    ensures ReadMeta(MetaObject(m)) == m.(created := Seconds(m.created), lastModified := Seconds(m.lastModified))
  {
    MetaLookup(m, "resourceType");
    MetaLookup(m, "created");
    MetaLookup(m, "lastModified");
    MetaLookup(m, "location");
    MetaLookup(m, "version");
    FieldRoundTrip(m.resourceType, m.created);
    FieldRoundTrip(m.location, m.lastModified);
    FieldRoundTrip(m.version, m.created);
  }

  // The resource's object after its first n fixed fields, over free attributes that are none of them.
  ghost predicate FixedUpTo(o: Object, c: Content, n: nat) {
    (forall k :: k in o <==> k in c.attributes || (FixedRank(k) < n && FixedField(c, k) != Null))
    && (forall k :: k in o ==> o[k] == if k in c.attributes then c.attributes[k] else FixedField(c, k))
  }

  lemma FixedUpToStep(o: Object, c: Content, k: string)
    requires Settled(c.attributes) && FixedUpTo(o, c, FixedRank(k)) && FixedRank(k) < 4
    ensures FixedUpTo(With(o, k, FixedField(c, k)), c, FixedRank(k) + 1)
  {
    ReservedNames(k);
    assert forall l :: FixedRank(l) == FixedRank(k) ==> l == k;
  }

  lemma ObjectEntries(c: Content)
    requires Settled(c.attributes)
    ensures FixedUpTo(ToObject(c), c, 4)
  {
    FixedUpToStep(c.attributes, c, "schemas");
    var o1 := With(c.attributes, "schemas", FixedField(c, "schemas"));
    FixedUpToStep(o1, c, "id");
    var o2 := With(o1, "id", FixedField(c, "id"));
    FixedUpToStep(o2, c, "externalId");
    FixedUpToStep(With(o2, "externalId", FixedField(c, "externalId")), c, "meta");
  }

  lemma FixedLookup(c: Content, k: string)
    requires Settled(c.attributes) && FixedRank(k) < 4
    ensures Lookup(ToObject(c), k) == FixedField(c, k)
  {
    var o := ToObject(c);
    ObjectEntries(c);
    forall l | l in o && EqualFold(l, k) ensures l == k {
      ReservedNames(l);
      NamesDiffer(l, k);
    }
    assert k !in c.attributes by { ReservedNames(k); }
    LookupOnly(o, k, k);
  }

  lemma FreeRoundTrip(c: Content)
    requires Settled(c.attributes)
    ensures FreeAttributes(ToObject(c)) == c.attributes
  {
    ObjectEntries(c);
    forall k | k in ToObject(c) && k !in c.attributes ensures Reserved(k) { ReservedNames(k); }
  }

  // Writing a resource as JSON and reading it back keeps everything but fractions of a second.
  lemma JsonRoundTrip(c: Content)
    requires Settled(c.attributes)
    ensures FromObject(ToObject(c)) == Truncated(c)
  {
    FixedLookup(c, "schemas");
    FixedLookup(c, "id");
    FixedLookup(c, "externalId");
    FixedLookup(c, "meta");
    FreeRoundTrip(c);
    MetaRoundTrip(c.meta);
    StringsRoundTrip(c.schemas);
    assert OnlyStrings([]) == [];
  }

  // The keys the reader treats specially are not ambiguous.
  ghost predicate ReservedUnique(o: Object) {
    forall k, l :: k in o && l in o && Reserved(k) && EqualFold(k, l) ==> k == l
  }

  lemma ToObjectReservedUnique(c: Content)
    requires Settled(c.attributes)
    ensures ReservedUnique(ToObject(c))
  {
    var o := ToObject(c);
    ObjectEntries(c);
    forall k, l | k in o && l in o && Reserved(k) && EqualFold(k, l) ensures k == l {
      assert Reserved(l);
      NamesDiffer(k, l);
    }
  }

  lemma MetaObjectCaseUnique(m: Meta)
    ensures CaseUnique(MetaObject(m))
  {
    MetaObjectEntries(m);
    forall k, l | k in MetaObject(m) && l in MetaObject(m) && EqualFold(k, l) ensures k == l { NamesDiffer(k, l); }
  }
}
