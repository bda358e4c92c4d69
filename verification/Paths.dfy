// Attribute paths, schema:name.sub, with an optional schema URN and sub-attribute.
module Paths {
  import opened Text

  // An empty schema or sub-attribute means there is none.
  datatype AttributePath = AttributePath(schema: string, name: string, sub: string)

  predicate IsNameChar(c: char) { IsAlpha(c) || IsDigit(c) || c == '-' || c == '_' }

  predicate ValidName(s: string) {
    s != "" && IsAlpha(s[0]) && forall i :: 0 <= i < |s| ==> IsNameChar(s[i])
  }

  // strings.EqualFold(s[:4], "urn:")
  predicate IsUrn(s: string) {
    |s| >= 4 && LowerChar(s[0]) == 'u' && LowerChar(s[1]) == 'r' && LowerChar(s[2]) == 'n' && s[3] == ':'
  }

  function PathText(p: AttributePath): string {
    (if p.schema == "" then "" else p.schema + ":") + LocalText(p.name, p.sub)
  }

  function LocalText(name: string, sub: string): string {
    name + (if sub == "" then "" else "." + sub)
  }

  // The part before the first dot.
  function BeforeDot(s: string): string {
    var dot := IndexOf(s, '.');
    if dot == -1 then s else s[..dot]
  }

  // Where a URN is split into schema and local part: at its last colon, provided a name follows.
  function SplitSchema(s: string): (r: (string, string)) {
    if !IsUrn(s) then ("", s)
    else
      var colon := LastIndexOf(s, ':');
      if colon == -1 || !ValidName(BeforeDot(s[colon + 1..])) then ("", s)
      else (s[..colon], s[colon + 1..])
  }

  function ParsePath(s: string): Option<AttributePath> {
    if s == "" || s[0] == '.' then None
    else
      var (schema, local) := SplitSchema(s);
      ParseLocal(schema, local)
  }

  // Reading the local part once the schema has been split off.
  function ParseLocal(schema: string, local: string): Option<AttributePath> {
    var dot := IndexOf(local, '.');
    if dot == -1 then
      if ValidName(local) then Some(AttributePath(schema, local, "")) else None
    else if ValidName(local[..dot]) && ValidName(local[dot + 1..]) then
      Some(AttributePath(schema, local[..dot], local[dot + 1..]))
    else None
  }

  // What ParsePath can return.
  predicate ValidPath(p: AttributePath) {
    ValidName(p.name) && (p.sub == "" || ValidName(p.sub)) && (p.schema == "" || IsUrn(p.schema + ":"))
  }

  lemma NameHasNo(s: string, c: char)
    requires ValidName(s) && !IsNameChar(c)
    ensures Lacks(s, c)
  {
  }

  lemma SplitLocal(name: string, sub: string)
    requires ValidName(name) && (sub == "" || ValidName(sub))
    ensures BeforeDot(LocalText(name, sub)) == name && Lacks(LocalText(name, sub), ':')
    ensures IndexOf(LocalText(name, sub), '.') == if sub == "" then -1 else |name|
  {
    NameHasNo(name, '.');
    NameHasNo(name, ':');
    if sub != "" {
      NameHasNo(sub, ':');
      IndexOfSplit(name, '.', sub);
      assert LocalText(name, sub) == name + ['.'] + sub;
    }
  }

  lemma UrnPrefix(schema: string, local: string)
    ensures var s := schema + [':'] + local; Lacks(local, ':') ==> IsUrn(schema + ":") == IsUrn(s)
  {
    var s, u := schema + [':'] + local, schema + ":";
    assert forall i :: 0 <= i < |u| ==> u[i] == s[i];
    assert |s| >= 4 && |u| < 4 ==> s[3] == local[3 - |u|];
  }

  lemma SplitSchemaJoin(s: string)
    ensures var (schema, local) := SplitSchema(s);
            if schema == "" then local == s else s == schema + ":" + local && IsUrn(schema + ":")
  {
    var (schema, local) := SplitSchema(s);
    if schema != "" {
      assert s == schema + [':'] + local;
      UrnPrefix(schema, local);
    }
  }

  lemma SplitSchemaOfText(p: AttributePath)
    requires ValidPath(p)
    ensures SplitSchema(PathText(p)) == (p.schema, LocalText(p.name, p.sub))
  {
    var local := LocalText(p.name, p.sub);
    var s := PathText(p);
    SplitLocal(p.name, p.sub);
    if p.schema == "" {
      assert s == local;
      assert |s| > 3 ==> s[3] != ':';
    } else {
      assert s == p.schema + [':'] + local;
      LastIndexOfSplit(p.schema, ':', local);
      UrnPrefix(p.schema, local);
      assert s[..|p.schema|] == p.schema && s[|p.schema| + 1..] == local;
    }
  }

  lemma ParseLocalText(p: AttributePath)
    requires ValidPath(p)
    ensures ParseLocal(p.schema, LocalText(p.name, p.sub)) == Some(p)
  {
    SplitLocal(p.name, p.sub);
    var local := LocalText(p.name, p.sub);
    if p.sub != "" {
      assert local[..|p.name|] == p.name && local[|p.name| + 1..] == p.sub;
    }
  }

  lemma FirstChar(p: AttributePath)
    requires ValidPath(p)
    ensures PathText(p) != "" && IsAlpha(PathText(p)[0])
    ensures p.schema != "" ==> LowerChar(PathText(p)[0]) == 'u'
  {
    if p.schema != "" {
      assert PathText(p)[0] == (p.schema + ":")[0];
    } else {
      assert PathText(p)[0] == p.name[0];
    }
  }

  lemma ParsePathText(p: AttributePath)
    requires ValidPath(p)
    ensures ParsePath(PathText(p)) == Some(p)
  {
    FirstChar(p);
    SplitSchemaOfText(p);
    ParseLocalText(p);
  }

  lemma LocalTextOfParse(schema: string, local: string)
    requires ParseLocal(schema, local).Some?
    ensures var p := ParseLocal(schema, local).value;
            p.schema == schema && LocalText(p.name, p.sub) == local && ValidName(p.name)
              && (p.sub == "" || ValidName(p.sub))
  {
    var dot := IndexOf(local, '.');
    if dot != -1 {
      assert local == local[..dot] + ("." + local[dot + 1..]);
    }
  }

  lemma PathTextOfParse(s: string)
    requires ParsePath(s).Some?
    ensures PathText(ParsePath(s).value) == s && ValidPath(ParsePath(s).value)
  {
    var (schema, local) := SplitSchema(s);
    LocalTextOfParse(schema, local);
    SplitSchemaJoin(s);
  }

  // ParsePath and PathText are exact inverses of each other.
  lemma PathRoundTrip(s: string, p: AttributePath)
    ensures ParsePath(s) == Some(p) <==> ValidPath(p) && PathText(p) == s
  {
    if ParsePath(s) == Some(p) { PathTextOfParse(s); }
    if ValidPath(p) { ParsePathText(p); }
  }
}
