/**
  The import-order preference of the Organize Imports page: the list editor's codec
  between the package list and the stored string, the stored default, the on-demand
  threshold and the validator of a new list entry.
*/
module ImportOrder {
  import opened Wrappers
  import opened Strings
  import opened Splitting

  /** java.util.StringTokenizer over one delimiter, seen through the tokens it still has
      to give: the maximal non-empty delimiter-free runs of its string. */
  class StringTokenizer {
    var remaining: seq<string>

    constructor (str: string, delimiter: char)
      ensures remaining == Tokens(str, delimiter)
    {
      remaining := Tokens(str, delimiter);
    }

    method HasMoreTokens() returns (more: bool)
      ensures more <==> remaining != []
    {
      more := remaining != [];
    }

    method CountTokens() returns (n: nat)
      ensures n == |remaining|
    {
      n := |remaining|;
    }

    method NextToken() returns (token: string)
      requires remaining != []
      modifies this
      ensures token == old(remaining)[0] && remaining == old(remaining)[1..]
    {
      token := remaining[0];
      remaining := remaining[1..];
    }
  }

  /** createList: every item followed by ';', the last one included. */
  method CreateList(items: seq<string>) returns (list: string)
    ensures list == Terminated(items, ';')
  {
    list := "";
    for i := 0 to |items|
      invariant list == Terminated(items[..i], ';')
    {
      assert items[..i + 1][..i] == items[..i];
      list := list + items[i];
      list := list + [';'];
    }
    assert items[..|items|] == items;
  }

  /** parseString: the tokens of the list, in order, empty ones dropped. */
  method ParseString(list: string) returns (items: seq<string>)
    ensures items == Tokens(list, ';')
  {
    var st := new StringTokenizer(list, ';');
    items := [];
    var more := st.HasMoreTokens();
    while more
      invariant items + st.remaining == Tokens(list, ';')
      invariant more <==> st.remaining != []
      modifies st
      decreases |st.remaining|
    {
      ghost var before := st.remaining;
      var token := st.NextToken();
      assert before == [token] + st.remaining;
      assert items + before == (items + [token]) + st.remaining;
      items := items + [token];
      more := st.HasMoreTokens();
    }
  }

  /** The stored import order when none has been set. */
  const DefaultImportOrder := "java;javax;com"

  /** getImportOrderPreference: the tokens of the stored string, none for a null string. */
  method GetImportOrderPreference(str: Option<string>) returns (res: array<string>)
    ensures fresh(res)
    ensures str.None? ==> res.Length == 0
    ensures str.Some? ==> res[..] == Tokens(str.value, ';')
  {
    if str.Some? {
      var tok := new StringTokenizer(str.value, ';');
      var nTokens := tok.CountTokens();
      res := new string[nTokens];
      for i := 0 to nTokens
        invariant tok.remaining == Tokens(str.value, ';')[i..]
        invariant res[..i] == Tokens(str.value, ';')[..i]
        modifies res, tok
      {
        res[i] := tok.NextToken();
        assert res[..i + 1] == res[..i] + [res[i]];
      }
    } else {
      res := new string[0];
    }
  }

  /** Writing a list and reading it back gives the list, when no item is empty or holds ';'. */
  lemma ParseCreatedList(items: seq<string>)
    requires forall i :: 0 <= i < |items| ==> items[i] != [] && ';' !in items[i]
    ensures Tokens(Terminated(items, ';'), ';') == items
  {
    TokensOfTerminated(items, ';');
  }

  /** Reading a stored string, writing the list back and reading it again changes nothing:
      the stored form is normalised after one round. */
  lemma ParseCreateParse(str: string)
    ensures Tokens(Terminated(Tokens(str, ';'), ';'), ';') == Tokens(str, ';')
  {
    TokensWellFormed(str, ';');
    TokensOfTerminated(Tokens(str, ';'), ';');
  }

  /** The default import order reads as java, javax, com. */
  lemma DefaultImportOrderTokens()
    ensures Tokens(DefaultImportOrder, ';') == ["java", "javax", "com"]
  {
    var items := ["java", "javax", "com"];
    assert Join(items, ";") == DefaultImportOrder by {
      assert items[..2] == ["java", "javax"];
      assert items[..2][..1] == ["java"];
    }
    assert forall i :: 0 <= i < |items| ==> items[i] != [] && ';' !in items[i];
    TokensOfJoin(items, ';');
  }

  /** Java's int. */
  newtype int32 = x: int | -0x8000_0000 <= x < 0x8000_0000

  const IntegerMaxValue: int32 := 0x7fff_ffff

  /** getImportNumberThreshold on the stored value: 0 means no limit. */
  function ImportNumberThreshold(threshold: int32): (r: int32)
    ensures r != 0
    ensures threshold == 0 ==> r == IntegerMaxValue
    ensures threshold != 0 ==> r == threshold
  {
    if threshold == 0 then IntegerMaxValue else threshold
  }

  /** Applying the mapping to its own result changes nothing. */
  lemma ThresholdIdempotent(threshold: int32)
    ensures ImportNumberThreshold(ImportNumberThreshold(threshold)) == ImportNumberThreshold(threshold)
  {
  }

  /** The stored on-demand threshold when none has been set. */
  const DefaultThreshold: int32 := 99

  /** The default threshold is a real limit: read back, it stays 99. */
  lemma DefaultThresholdKept()
    ensures ImportNumberThreshold(DefaultThreshold) == DefaultThreshold
  {
  }

  /** The entry dialog's validator: null for a valid package name, otherwise the error
      message, or "" (no message, but still refused) for empty text. */
  function IsValid(newText: string, validPackageName: string -> bool, errorMessage: string): (r: Option<string>)
    ensures r.None? <==> validPackageName(newText)
    ensures !validPackageName(newText) && newText != "" ==> r == Some(errorMessage)
    ensures !validPackageName(newText) && newText == "" ==> r == Some("")
  {
    if validPackageName(newText) then None
    else if newText != "" then Some(errorMessage)
    else Some("")
  }

  /** With a non-empty error message the answer tells the three cases apart. */
  lemma ValidatorCases(newText: string, validPackageName: string -> bool, errorMessage: string)
    requires errorMessage != ""
    ensures IsValid(newText, validPackageName, errorMessage) == Some("") <==>
      !validPackageName(newText) && newText == ""
    ensures IsValid(newText, validPackageName, errorMessage) == Some(errorMessage) <==>
      !validPackageName(newText) && newText != ""
  {
  }
}
