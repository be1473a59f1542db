/**
 * The SQL text and parameter lists the pet adapter builds
 * (internal/db/adapter/sql_pet.go): the partial-update statement of
 * UpdatePetForm, the IN-list of FindPetbyStatus, and the photo-URL encoding.
 */
module PetStatements {
  import opened Strconv
  import opened Strings
  import opened PetRows
  import opened PetTables

  const PetTable: string := "pet"

  /** The photourls column written: the URLs joined with ", ". */
  function EncodePhotoUrls(urls: seq<string>): (column: string)
    ensures |urls| == 0 ==> column == ""
    ensures |urls| == 1 ==> column == urls[0]
    ensures |urls| > 0 ==> |column| == TotalLength(urls) + 2 * (|urls| - 1)
  {
    Join(urls, ", ")
  }

  /**
   * Reading a stored list back gives the original list only for a single
   * URL: the join is not split again on read.
   */
  lemma PhotoUrlsRoundTrip(urls: seq<string>)
    ensures DecodePhotoUrls(EncodePhotoUrls(urls)) == urls <==> |urls| == 1
    ensures |DecodePhotoUrls(EncodePhotoUrls(urls))| == 1
  {
  }

  /** A statement parameter. */
  datatype Param = Text(s: string) | Int(i: int)

  /** `$n`, the n-th positional placeholder. */
  function Placeholder(n: nat): string
  {
    "$" + Decimal(n)
  }

  /** Distinct positions give distinct placeholders. */
  lemma PlaceholderInjective(m: nat, n: nat)
    requires Placeholder(m) == Placeholder(n)
    ensures m == n
  {
    assert Decimal(m) == Placeholder(m)[1..];
    assert Decimal(n) == Placeholder(n)[1..];
    DecimalValue(m);
    DecimalValue(n);
  }

  /** The columns UpdatePetForm assigns: name if given, then status if given. */
  function FormAssignments(name: string, status: string): (a: seq<Assignment>)
    ensures |a| == (if name != "" then 1 else 0) + (if status != "" then 1 else 0)
    ensures forall k :: 0 <= k < |a| ==> a[k].value != ""
    ensures forall i, j :: 0 <= i < j < |a| ==> a[i].column != a[j].column
    ensures |a| > 0 ==> a[0] == if name != "" then Assignment(NameColumn, name) else Assignment(StatusColumn, status)
  {
    (if name != "" then [Assignment(NameColumn, name)] else [])
    + (if status != "" then [Assignment(StatusColumn, status)] else [])
  }

  function ColumnName(c: Column): string
  {
    match c
    case NameColumn => "name"
    case StatusColumn => "status"
  }

  /** The SET clauses, numbered from $1 in assignment order. */
  function SetClauses(assigns: seq<Assignment>): seq<string>
  {
    seq(|assigns|, k requires 0 <= k < |assigns| => ColumnName(assigns[k].column) + " = " + Placeholder(k + 1))
  }

  /** No two SET clauses are the same text: each carries its own placeholder. */
  lemma SetClausesDistinct(assigns: seq<Assignment>)
    ensures |SetClauses(assigns)| == |assigns|
    ensures forall i, j :: 0 <= i < j < |assigns| ==> SetClauses(assigns)[i] != SetClauses(assigns)[j]
  {
    var cs := SetClauses(assigns);
    forall i, j | 0 <= i < j < |assigns|
      ensures cs[i] != cs[j]
    {
      var pi := ColumnName(assigns[i].column) + " = ";
      var pj := ColumnName(assigns[j].column) + " = ";
      assert cs[i] == pi + Placeholder(i + 1) && cs[j] == pj + Placeholder(j + 1);
      if pi == pj {
        assert cs[i][|pi|..] == Placeholder(i + 1);
        assert cs[j][|pj|..] == Placeholder(j + 1);
        if cs[i] == cs[j] {
          PlaceholderInjective(i + 1, j + 1);
        }
      } else {
        assert assigns[i].column != assigns[j].column;
        assert cs[i][0] != cs[j][0];
      }
    }
  }

  /**
   * The form update assigns exactly the non-empty fields and leaves every
   * other column of the row as it was.
   */
  lemma {:induction false} FormAssignmentsEffect(r: PetRecord, name: string, status: string)
    ensures AssignAll(r, FormAssignments(name, status))
      == r.(name := KeepIfEmpty(name, r.name), status := KeepIfEmpty(status, r.status))
    ensures |FormAssignments(name, status)| == 0 <==> name == "" && status == ""
  {
    var a := FormAssignments(name, status);
    if name != "" && status != "" {
      assert a[1..][1..] == [];
      calc {
        AssignAll(r, a);
        AssignAll(Assign(r, a[0]), a[1..]);
        AssignAll(Assign(Assign(r, a[0]), a[1..][0]), a[1..][1..]);
      }
    } else if name != "" || status != "" {
      assert a[1..] == [];
    }
  }

  /** One more assignment adds one clause, numbered after the others. */
  lemma SetClausesSnoc(a: seq<Assignment>, x: Assignment)
    ensures SetClauses(a + [x]) == SetClauses(a) + [ColumnName(x.column) + " = " + Placeholder(|a| + 1)]
    ensures ColumnName(NameColumn) + " = " == "name = " && ColumnName(StatusColumn) + " = " == "status = "
  {
    assert SetClauses(a + [x])[|a|] == ColumnName(x.column) + " = " + Placeholder(|a| + 1);
  }

  /**
   * UpdatePetForm's statement (sql_pet.go:14-31): one clause and one
   * parameter per non-empty field, counted from $1, then the id as the
   * last parameter in the WHERE clause.
   */
  method BuildUpdatePetForm(name: string, status: string, petID: int) returns (query: string, params: seq<Param>)
    ensures |params| == |FormAssignments(name, status)| + 1
    ensures forall k :: 0 <= k < |params| - 1 ==> params[k] == Text(FormAssignments(name, status)[k].value)
    ensures params[|params| - 1] == Int(petID)
    ensures query == "UPDATE " + PetTable + " Set" + " " + Join(SetClauses(FormAssignments(name, status)), ", ")
      + " WHERE id = " + Placeholder(|params|)
    ensures name == "" && status == "" ==> params == [Int(petID)]
  {
    query := "UPDATE " + PetTable + " Set";
    params := [];
    var setClauses: seq<string> := [];
    var count := 1;
    ghost var a: seq<Assignment> := [];
    if name != "" {
      SetClausesSnoc(a, Assignment(NameColumn, name));
      setClauses := setClauses + ["name = " + Placeholder(count)];
      a := a + [Assignment(NameColumn, name)];
      count := count + 1;
      params := params + [Text(name)];
    }
    if status != "" {
      SetClausesSnoc(a, Assignment(StatusColumn, status));
      setClauses := setClauses + ["status = " + Placeholder(count)];
      a := a + [Assignment(StatusColumn, status)];
      count := count + 1;
      params := params + [Text(status)];
    }
    assert a == FormAssignments(name, status);
    query := query + " " + Join(setClauses, ", ") + " WHERE id = " + Placeholder(count);
    params := params + [Int(petID)];
  }

  /**
   * FindPetbyStatus's IN-list (sql_pet.go:257-283): placeholder i is
   * "$(i+1)", the list joins them with ", ", and the arguments are the
   * statuses in order.
   */
  method BuildInList(statuses: seq<string>) returns (placeholders: seq<string>, list: string, args: seq<string>)
    ensures |placeholders| == |statuses|
    ensures forall i :: 0 <= i < |statuses| ==> placeholders[i] == Placeholder(i + 1)
    ensures list == Join(placeholders, ", ")
    ensures args == statuses
  {
    var ph := new string[|statuses|];
    var i := 0;
    while i < |statuses|
      invariant 0 <= i <= |statuses|
      invariant forall k :: 0 <= k < i ==> ph[k] == Placeholder(k + 1)
    {
      ph[i] := Placeholder(i + 1);
      i := i + 1;
    }
    placeholders := ph[..];
    list := Join(placeholders, ", ");
    var a := new string[|statuses|];
    i := 0;
    while i < |statuses|
      invariant 0 <= i <= |statuses|
      invariant forall k :: 0 <= k < i ==> a[k] == statuses[k]
    {
      a[i] := statuses[i];
      i := i + 1;
    }
    args := a[..];
  }

  /** The IN-list's placeholders are pairwise distinct. */
  lemma InListDistinct(placeholders: seq<string>, n: nat)
    requires |placeholders| == n
    requires forall i :: 0 <= i < n ==> placeholders[i] == Placeholder(i + 1)
    ensures forall i, j :: 0 <= i < j < n ==> placeholders[i] != placeholders[j]
  {
    forall i, j | 0 <= i < j < n
      ensures placeholders[i] != placeholders[j]
    {
      if placeholders[i] == placeholders[j] {
        PlaceholderInjective(i + 1, j + 1);
      }
    }
  }
}
