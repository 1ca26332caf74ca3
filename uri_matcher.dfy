/**
 * The part of android.content.UriMatcher and android.content.ContentUris the provider relies on:
 * a URI is its authority and its path segments; a matcher is the list of registered paths.
 */
module UriMatcher {
  import opened Wrappers
  import opened Decimal

  /** A content URI as the matcher reads it: the authority (None when absent) and the path segments. */
  datatype Uri = Uri(authority: Option<string>, path: seq<string>)

  /** One segment of a registered path: literal text, or '#' for a number. */
  datatype Segment = Exact(text: string) | Number

  /** One addURI(authority, path, code) registration. */
  datatype Rule = Rule(authority: string, pattern: seq<Segment>, code: nat)

  /** new UriMatcher(rootCode) followed by the addURI calls, in order. */
  datatype Matcher = Matcher(rootCode: int, rules: seq<Rule>)

  const NO_MATCH: int := -1

  /** '#' accepts a segment made only of the characters '0' to '9'. */
  predicate SegmentMatches(p: Segment, s: string) {
    match p
    case Exact(t) => s == t
    case Number => AllDigits(s)
  }

  predicate RuleMatches(r: Rule, u: Uri) {
    u.authority == Some(r.authority) && |r.pattern| == |u.path| &&
    forall i :: 0 <= i < |u.path| ==> SegmentMatches(r.pattern[i], u.path[i])
  }

  /** The first registration whose path matches the whole URI. */
  function FirstMatch(rules: seq<Rule>, u: Uri): (r: Option<nat>)
    ensures r.Some? ==> r.value < |rules| && RuleMatches(rules[r.value], u)
    ensures r.Some? ==> forall j :: 0 <= j < r.value ==> !RuleMatches(rules[j], u)
    ensures r.None? ==> forall j :: 0 <= j < |rules| ==> !RuleMatches(rules[j], u)
  {
    if rules == [] then None
    else if RuleMatches(rules[0], u) then Some(0)
    else match FirstMatch(rules[1..], u)
      case None => None
      case Some(i) => Some(i + 1)
  }

  /** UriMatcher.match: the root code for a URI with neither authority nor path, NO_MATCH when nothing matches. */
  function Match(m: Matcher, u: Uri): int {
    if u.path == [] && u.authority.None? then m.rootCode
    else match FirstMatch(m.rules, u)
      case None => NO_MATCH
      case Some(i) => m.rules[i].code
  }

  /** ContentUris.parseId: Long.parseLong of the last segment (None is NumberFormatException), -1 without one. */
  function ParseId(u: Uri): Option<Long> {
    if u.path == [] then Some(-1) else ParseLong(u.path[|u.path| - 1])
  }

  /** ContentUris.withAppendedId: the id as one more path segment, read back by parseId. */
  function WithAppendedId(u: Uri, id: Long): (r: Uri)
    ensures r.authority == u.authority && |r.path| == |u.path| + 1 && r.path[..|u.path|] == u.path
    ensures r.path[|u.path|] == LongToString(id)
    ensures ParseId(r) == Some(id)
  {
    ParseLongToString(id);
    Uri(u.authority, u.path + [LongToString(id)])
  }
}
