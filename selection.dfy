/**
 * The selection algebra of the provider: a WHERE clause is a nullable string,
 * its positional arguments a nullable array of strings.
 */
module Selection {
  import opened Wrappers

  /** TextUtils.isEmpty: null or of length zero. */
  predicate IsEmpty(s: Option<string>) {
    s.None? || |s.value| == 0
  }

  /** concatenateWhere: the two clauses joined by AND, an empty side dropped. */
  function ConcatenateWhere(a: Option<string>, b: Option<string>): Option<string> {
    if IsEmpty(a) then b
    else if IsEmpty(b) then a
    else Some("(" + a.value + ") AND (" + b.value + ")")
  }

  /** The arguments of a nullable argument array; null holds none. */
  function Args(a: Option<seq<string>>): seq<string> {
    if a.None? then [] else a.value
  }

  /** What appendSelectionArgs needs: it reads newValues.length once originalValues is non-empty. */
  predicate CanAppend(originalValues: Option<seq<string>>, newValues: Option<seq<string>>) {
    |Args(originalValues)| == 0 || newValues.Some?
  }

  /** The value appendSelectionArgs returns, on argument lists. */
  function AppendedArgs(originalValues: Option<seq<string>>, newValues: Option<seq<string>>): Option<seq<string>>
    requires CanAppend(originalValues, newValues)
  {
    if |Args(originalValues)| == 0 then newValues
    else Some(originalValues.value + newValues.value)
  }

  /** The number of '?' placeholders in a clause. */
  function Placeholders(s: string): nat {
    if s == [] then 0 else (if s[0] == '?' then 1 else 0) + Placeholders(s[1..])
  }

  function ClausePlaceholders(s: Option<string>): nat {
    if s.None? then 0 else Placeholders(s.value)
  }

  /** A clause and its arguments agree: one argument per placeholder. */
  predicate Balanced(selection: Option<string>, selectionArgs: Option<seq<string>>) {
    ClausePlaceholders(selection) == |Args(selectionArgs)|
  }

  /** The three outcomes of concatenateWhere, as the source states them. */
  lemma ConcatenateWhereCases(a: Option<string>, b: Option<string>)
    ensures IsEmpty(a) ==> ConcatenateWhere(a, b) == b
    ensures !IsEmpty(a) && IsEmpty(b) ==> ConcatenateWhere(a, b) == a
    ensures !IsEmpty(a) && !IsEmpty(b) ==>
              ConcatenateWhere(a, b) == Some("(" + a.value + ") AND (" + b.value + ")")
  {
  }

  /** The joined clause is empty exactly when both inputs are. */
  lemma ConcatenateWhereEmpty(a: Option<string>, b: Option<string>)
    ensures IsEmpty(ConcatenateWhere(a, b)) <==> IsEmpty(a) && IsEmpty(b)
  {
  }

  /** When both clauses are present, a stands first and b second, each inside its parentheses. */
  lemma ConcatenateWhereOrder(a: string, b: string)
    requires a != [] && b != []
    ensures var r := ConcatenateWhere(Some(a), Some(b)).value;
            |r| == |a| + |b| + 9 &&
            r[0] == '(' && r[1..|a| + 1] == a &&
            r[|a| + 1..|a| + 8] == ") AND (" &&
            r[|a| + 8..|a| + 8 + |b|] == b && r[|r| - 1] == ')'
  {
    var r := ConcatenateWhere(Some(a), Some(b)).value;
    assert r == "(" + a + ") AND (" + b + ")";
    assert r[1..|a| + 1] == a;
    assert r[|a| + 1..|a| + 8] == ") AND (";
    assert r[|a| + 8..|a| + 8 + |b|] == b;
  }

  lemma {:induction false} PlaceholdersAppend(s: string, t: string)
    ensures Placeholders(s + t) == Placeholders(s) + Placeholders(t)
  {
    if s == [] {
      assert s + t == t;
    } else {
      assert (s + t)[0] == s[0];
      assert (s + t)[1..] == s[1..] + t;
      PlaceholdersAppend(s[1..], t);
    }
  }

  /** Joining clauses neither adds nor loses a placeholder. */
  lemma ConcatenateWherePlaceholders(a: Option<string>, b: Option<string>)
    ensures ClausePlaceholders(ConcatenateWhere(a, b)) == ClausePlaceholders(a) + ClausePlaceholders(b)
  {
    if !IsEmpty(a) && !IsEmpty(b) {
      var x, y := a.value, b.value;
      assert Placeholders("(") == 0;
      assert Placeholders(") AND (") == 0;
      assert Placeholders(")") == 0;
      PlaceholdersAppend("(", x);
      PlaceholdersAppend("(" + x, ") AND (");
      PlaceholdersAppend("(" + x + ") AND (", y);
      PlaceholdersAppend("(" + x + ") AND (" + y, ")");
    } else if IsEmpty(a) {
      assert ClausePlaceholders(a) == 0;
    } else {
      assert ClausePlaceholders(b) == 0;
    }
  }

  /** The appended arguments are the original ones followed by the new ones, and are null only when both are absent. */
  lemma AppendedArgsContents(originalValues: Option<seq<string>>, newValues: Option<seq<string>>)
    requires CanAppend(originalValues, newValues)
    ensures Args(AppendedArgs(originalValues, newValues)) == Args(originalValues) + Args(newValues)
    ensures AppendedArgs(originalValues, newValues).None? <==> |Args(originalValues)| == 0 && newValues.None?
    ensures |Args(originalValues)| == 0 ==> AppendedArgs(originalValues, newValues) == newValues
  {
  }

  /** Joining two balanced clauses with their appended arguments keeps them balanced. */
  lemma ConcatenateKeepsBalance(a: Option<string>, aArgs: Option<seq<string>>,
                                b: Option<string>, bArgs: Option<seq<string>>)
    requires Balanced(a, aArgs) && Balanced(b, bArgs) && CanAppend(aArgs, bArgs)
    ensures Balanced(ConcatenateWhere(a, b), AppendedArgs(aArgs, bArgs))
  {
    ConcatenateWherePlaceholders(a, b);
    AppendedArgsContents(aArgs, bArgs);
  }

  /** The contents of a nullable array. */
  ghost function Contents(a: array?<string>): Option<seq<string>>
    reads a
  {
    if a == null then None else Some(a[..])
  }

  /**
   * appendSelectionArgs: newValues itself when originalValues is null or empty; otherwise
   * a new array holding originalValues followed by newValues, both inputs left as they were.
   */
  method AppendSelectionArgs(originalValues: array?<string>, newValues: array?<string>)
    returns (result: array?<string>)
    requires originalValues == null || originalValues.Length == 0 || newValues != null
    ensures originalValues == null || originalValues.Length == 0 ==> result == newValues
    ensures originalValues != null && originalValues.Length != 0 ==>
              result != null && fresh(result) && result.Length == originalValues.Length + newValues.Length
    ensures Contents(result) == AppendedArgs(Contents(originalValues), Contents(newValues))
  {
    if originalValues == null || originalValues.Length == 0 {
      return newValues;
    }
    var n := originalValues.Length;
    var r := new string[n + newValues.Length];
    var i := 0;
    while i < n
      invariant 0 <= i <= n
      invariant forall k :: 0 <= k < i ==> r[k] == originalValues[k]
    {
      r[i] := originalValues[i];
      i := i + 1;
    }
    var j := 0;
    while j < newValues.Length
      invariant 0 <= j <= newValues.Length
      invariant forall k :: 0 <= k < n ==> r[k] == originalValues[k]
      invariant forall k :: 0 <= k < j ==> r[n + k] == newValues[k]
    {
      r[n + j] := newValues[j];
      j := j + 1;
    }
    assert r[..] == originalValues[..] + newValues[..];
    result := r;
  }
}
