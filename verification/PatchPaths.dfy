// Paths of PATCH operations: attribute, optional value filter in brackets, optional sub-attribute after it.
module PatchPaths {
  import opened Text
  import opened Paths
  import opened Filters
  import opened FilterRoundTrip
  import FilterParsing

  // An unfiltered sub-attribute belongs to the attribute path; sub is the one after the brackets.
  datatype PatchPath = PatchPath(attribute: AttributePath, filter: Option<Filter>, sub: string)

  function PatchPathText(p: PatchPath): string {
    PathText(p.attribute)
    + (if p.filter.None? then "" else "[" + FilterText(p.filter.value) + "]")
    + (if p.sub == "" then "" else "." + p.sub)
  }

  function ParsePatchPath(s: string): Option<PatchPath> {
    if s == "" then None
    else
      var open := IndexOf(s, '[');
      if open == -1 then
        var p := ParsePath(s);
        if p.None? then None else Some(PatchPath(p.value, None, ""))
      else ParseFiltered(s, open, LastIndexOf(s, ']'))
  }

  // A path with an opening bracket at open and its closing bracket, if any, at close.
  function ParseFiltered(s: string, open: nat, close: int): Option<PatchPath>
    requires open < |s| && s[open] == '[' && -1 <= close < |s| && (close >= 0 ==> s[close] == ']')
  {
    var attr := ParsePath(s[..open]);
    if attr.None? || close < open then None else ParseBracketed(attr.value, s[open + 1..close], s[close + 1..])
  }

  // The text between the brackets and the text after them.
  function ParseBracketed(attr: AttributePath, inside: string, after: string): Option<PatchPath> {
    var filter := ParseFilter(inside);
    if filter.None? then None
    else if after == "" then Some(PatchPath(attr, filter, ""))
    else if after[0] == '.' && ValidName(after[1..]) then Some(PatchPath(attr, filter, after[1..]))
    else None
  }

  // What ParsePatchPath can return.
  predicate ValidPatchPath(p: PatchPath) {
    ValidPath(p.attribute) && Lacks(p.attribute.schema, '[')
    && match p.filter
       case None => p.sub == ""
       case Some(f) => WellFormed(f) && (p.sub == "" || ValidName(p.sub))
  }

  // The parser as it runs: the filter is read by the stateful parser.
  method Parse(s: string) returns (r: Option<PatchPath>)
    ensures r == ParsePatchPath(s)
  {
    if s == "" { return None; }
    var open := IndexOf(s, '[');
    if open == -1 {
      var p := ParsePath(s);
      return if p.None? then None else Some(PatchPath(p.value, None, ""));
    }
    var attr := ParsePath(s[..open]);
    if attr.None? { return None; }
    var close := LastIndexOf(s, ']');
    if close == -1 || close < open { return None; }
    r := ParseInside(attr.value, s[open + 1..close], s[close + 1..]);
  }

  // The filter between the brackets and the sub-attribute after them.
  method ParseInside(attr: AttributePath, inside: string, rest: string) returns (r: Option<PatchPath>)
    ensures r == ParseBracketed(attr, inside, rest)
  {
    var filter := FilterParsing.Parse(inside);
    if filter.None? { return None; }
    var sub := "";
    if rest != "" {
      if rest[0] != '.' { return None; }
      sub := rest[1..];
      if !ValidName(sub) { return None; }
    }
    r := Some(PatchPath(attr, filter, sub));
  }

  lemma PathTextHasNoBracket(p: AttributePath)
    requires ValidPath(p) && Lacks(p.schema, '[')
    ensures Lacks(PathText(p), '[')
  {
  }

  // Where the parts of a bracketed text lie.
  lemma BracketParts(attr: string, inside: string, after: string)
    ensures var s := attr + "[" + inside + "]" + after;
            var n := |attr| + 1 + |inside|;
            s == attr + ['['] + (inside + "]" + after) && s == (attr + "[" + inside) + [']'] + after
            && s[..|attr|] == attr && s[|attr| + 1..n] == inside && s[n + 1..] == after
  {
  }

  // The first `[` and the last `]` are the ones around the filter, whatever the filter holds.
  lemma BracketsFound(attr: string, inside: string, after: string)
    requires Lacks(attr, '[') && Lacks(after, ']')
    ensures var s := attr + "[" + inside + "]" + after;
            IndexOf(s, '[') == |attr| && LastIndexOf(s, ']') == |attr| + 1 + |inside|
            && s[..|attr|] == attr && s[|attr| + 1..|attr| + 1 + |inside|] == inside
            && s[|attr| + 2 + |inside|..] == after
  {
    BracketParts(attr, inside, after);
    IndexOfSplit(attr, '[', inside + "]" + after);
    LastIndexOfSplit(attr + "[" + inside, ']', after);
  }

  lemma FilteredDispatch(s: string, open: nat, close: int)
    requires s != "" && IndexOf(s, '[') == open && LastIndexOf(s, ']') == close
    ensures ParsePatchPath(s) == ParseFiltered(s, open, close)
  {
  }

  lemma BracketedDispatch(attr: string, inside: string, after: string)
    requires Lacks(attr, '[') && Lacks(after, ']') && ParsePath(attr).Some?
    ensures ParsePatchPath(attr + "[" + inside + "]" + after) == ParseBracketed(ParsePath(attr).value, inside, after)
  {
    BracketsFound(attr, inside, after);
    FilteredDispatch(attr + "[" + inside + "]" + after, |attr|, |attr| + 1 + |inside|);
  }

  lemma BracketedRead(attr: AttributePath, f: Filter, sub: string)
    requires WellFormed(f) && (sub == "" || ValidName(sub))
    ensures ParseBracketed(attr, FilterText(f), if sub == "" then "" else "." + sub)
        == Some(PatchPath(attr, Some(f), sub))
  {
    FilterRoundTrip.PrintParse(f);
    assert ("." + sub)[1..] == sub;
  }

  lemma PatchPathTextIs(p: PatchPath)
    requires p.filter.Some?
    ensures PatchPathText(p)
            == PathText(p.attribute) + "[" + FilterText(p.filter.value) + "]"
               + (if p.sub == "" then "" else "." + p.sub)
  {
  }

  lemma PrintParse(p: PatchPath)
    requires ValidPatchPath(p)
    ensures ParsePatchPath(PatchPathText(p)) == Some(p)
  {
    AttributeText(p.attribute);
    if p.filter.None? {
      PrintParsePlain(PatchPathText(p), p);
    } else {
      PatchPathTextIs(p);
      PrintParseBracketed(PatchPathText(p), PathText(p.attribute), p.filter.value, p);
    }
  }

  lemma PrintParsePlain(s: string, p: PatchPath)
    requires s == PathText(p.attribute) && s != "" && Lacks(s, '[') && ParsePath(s) == Some(p.attribute)
    requires p.filter.None? && p.sub == ""
    ensures ParsePatchPath(s) == Some(p)
  {
  }

  lemma PrintParseBracketed(s: string, attr: string, f: Filter, p: PatchPath)
    requires s == attr + "[" + FilterText(f) + "]" + (if p.sub == "" then "" else "." + p.sub)
    requires Lacks(attr, '[') && ParsePath(attr) == Some(p.attribute)
    requires p.filter == Some(f) && WellFormed(f) && (p.sub == "" || ValidName(p.sub))
    ensures ParsePatchPath(s) == Some(p)
  {
    BracketedDispatch(attr, FilterText(f), if p.sub == "" then "" else "." + p.sub);
    BracketedRead(p.attribute, f, p.sub);
  }

  lemma AttributeText(p: AttributePath)
    requires ValidPath(p) && Lacks(p.schema, '[')
    ensures PathText(p) != "" && Lacks(PathText(p), '[') && ParsePath(PathText(p)) == Some(p)
  {
    FirstChar(p);
    PathTextHasNoBracket(p);
    ParsePathText(p);
  }

  lemma BracketedIsValid(attr: AttributePath, inside: string, after: string)
    requires ValidPath(attr) && Lacks(attr.schema, '[') && ParseBracketed(attr, inside, after).Some?
    ensures ValidPatchPath(ParseBracketed(attr, inside, after).value)
  {
    ParsedOr(inside);
  }

  lemma PathIsValid(s: string)
    requires ParsePath(s).Some? && Lacks(s, '[')
    ensures ValidPath(ParsePath(s).value) && Lacks(ParsePath(s).value.schema, '[')
  {
    PathTextOfParse(s);
    SchemaInText(ParsePath(s).value, '[');
  }

  lemma FilteredIsValid(s: string, open: nat, close: int)
    requires open < |s| && s[open] == '[' && -1 <= close < |s| && (close >= 0 ==> s[close] == ']')
    requires Lacks(s[..open], '[') && ParseFiltered(s, open, close).Some?
    ensures ValidPatchPath(ParseFiltered(s, open, close).value)
  {
    PathIsValid(s[..open]);
    BracketedIsValid(ParsePath(s[..open]).value, s[open + 1..close], s[close + 1..]);
  }

  lemma ParsedIsValid(s: string)
    requires ParsePatchPath(s).Some?
    ensures ValidPatchPath(ParsePatchPath(s).value)
  {
    var open := IndexOf(s, '[');
    if open == -1 { PathIsValid(s); } else { FilteredIsValid(s, open, LastIndexOf(s, ']')); }
  }

  lemma SchemaInText(p: AttributePath, c: char)
    requires Lacks(PathText(p), c)
    ensures Lacks(p.schema, c)
  {
    assert forall i :: 0 <= i < |p.schema| ==> p.schema[i] == PathText(p)[i];
  }

  // Patch paths round-trip both ways: exactly the valid ones come out of the parser, and each of them
  // is read back from its printed text.
  lemma PatchPathRoundTrip(p: PatchPath)
    ensures ValidPatchPath(p) <==> exists s :: ParsePatchPath(s) == Some(p)
    ensures ValidPatchPath(p) ==> ParsePatchPath(PatchPathText(p)) == Some(p)
  {
    if ValidPatchPath(p) { PrintParse(p); }
    forall s | ParsePatchPath(s) == Some(p) ensures ValidPatchPath(p) { ParsedIsValid(s); }
  }
}
