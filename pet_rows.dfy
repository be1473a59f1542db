/**
 * The row aggregator of internal/db/adapter/sql_pet.go: the flat rows of the
 * pet ⋈ category ⟕ pet_tags ⟕ tags join, and the two loops that fold them
 * back into pets (FindPetbyStatus and FindPetbyID).
 */
module PetRows {
  import opened Wrappers
  import opened Errors
  import opened Models

  /**
   * One result row: (pet_id, pet_name, photourls, pet_status, c.id,
   * category_name, t.id, tag_name). The tag columns come from a LEFT JOIN
   * and are NULL (None) for a pet without tags.
   */
  datatype Row = Row(
    petId: int,
    petName: string,
    photoUrls: string,
    status: string,
    categoryId: int,
    categoryName: string,
    tagId: Option<int>,
    tagName: Option<string>)

  /** rows.Scan into plain `int` and `string` variables fails on a NULL column. */
  predicate Scannable(r: Row)
  {
    r.tagId.Some? && r.tagName.Some?
  }

  predicate AllScannable(rows: seq<Row>)
  {
    forall i :: 0 <= i < |rows| ==> Scannable(rows[i])
  }

  /** The error both loops return when a row does not scan. */
  const ScanError: Error := Failure("failed to scan row")

  /** The photourls column read back: the stored text becomes a one-element list. */
  function DecodePhotoUrls(column: string): seq<string>
  {
    [column]
  }

  function TagOf(r: Row): Tag
    requires Scannable(r)
  {
    Tag(r.tagId.value, r.tagName.value)
  }

  /** The tag columns of the rows, in row order. */
  function TagsOf(rows: seq<Row>): (ts: seq<Tag>)
    requires AllScannable(rows)
    ensures |ts| == |rows|
  {
    if |rows| == 0 then [] else [TagOf(rows[0])] + TagsOf(rows[1..])
  }

  /** The pet a loop starts from a row that opens a new pet. */
  function SeedPet(r: Row): Pet
    requires Scannable(r)
  {
    Pet(r.petId, Category(r.categoryId, r.categoryName), r.petName,
        DecodePhotoUrls(r.photoUrls), [TagOf(r)], r.status)
  }

  function WithTag(p: Pet, t: Tag): Pet
  {
    p.(tags := p.tags + [t])
  }

  // ---------------------------------------------------------------------
  // FindPetbyStatus: one pet per maximal run of rows with the same pet id.

  /** The length of the longest prefix of `rows` whose pet id is `id`. */
  function RunLength(rows: seq<Row>, id: int): (n: nat)
    ensures n <= |rows|
    ensures forall k :: 0 <= k < n ==> rows[k].petId == id
    ensures n < |rows| ==> rows[n].petId != id
  {
    if |rows| == 0 || rows[0].petId != id then 0 else 1 + RunLength(rows[1..], id)
  }

  /** The pet a run of rows stands for: its first row's columns, all its rows' tags. */
  function RunPet(run: seq<Row>): Pet
    requires |run| > 0 && AllScannable(run)
  {
    Pet(run[0].petId, Category(run[0].categoryId, run[0].categoryName), run[0].petName,
        DecodePhotoUrls(run[0].photoUrls), TagsOf(run), run[0].status)
  }

  /** The reference grouping: split the rows into maximal runs, one pet per run. */
  function Group(rows: seq<Row>): seq<Pet>
    requires AllScannable(rows)
    decreases |rows|
  {
    if |rows| == 0 then []
    else
      var n := RunLength(rows, rows[0].petId);
      assert rows[..n] + rows[n..] == rows;
      [RunPet(rows[..n])] + Group(rows[n..])
  }

  /** What FindPetbyStatus returns for a complete result set. */
  function ByStatusResult(rows: seq<Row>): (r: Result<seq<Pet>, Error>)
    ensures r.Ok? <==> AllScannable(rows)
    ensures r.Err? ==> r.error == ScanError
    ensures rows == [] ==> r == Ok([])
    ensures r.Ok? ==> AllTags(r.value) == TagsOf(rows) && |r.value| <= |rows|
    ensures r.Ok? ==> forall k :: 0 <= k < |r.value| ==> |r.value[k].tags| > 0
  {
    if AllScannable(rows) then
      GroupKeepsEveryTag(rows);
      GroupPetsHaveTags(rows);
      GroupNoLongerThanRows(rows);
      Ok(Group(rows))
    else Err(ScanError)
  }

  /** The grouping has at most one pet per row. */
  lemma {:induction false} GroupNoLongerThanRows(rows: seq<Row>)
    requires AllScannable(rows)
    ensures |Group(rows)| <= |rows|
    decreases |rows|
  {
    if |rows| > 0 {
      var n := RunLength(rows, rows[0].petId);
      GroupNoLongerThanRows(rows[n..]);
    }
  }

  /**
   * The grouping still owed once the loop holds `current` and has `rest`
   * left: the rows of rest that continue current's id join it, and the
   * others group afresh.
   */
  function Continue(current: Pet, rest: seq<Row>): seq<Pet>
    requires AllScannable(rest)
  {
    var n := RunLength(rest, current.id);
    [current.(tags := current.tags + TagsOf(rest[..n]))] + Group(rest[n..])
  }

  lemma {:induction false} TagsOfAppend(a: seq<Row>, b: seq<Row>)
    requires AllScannable(a) && AllScannable(b)
    ensures AllScannable(a + b) && TagsOf(a + b) == TagsOf(a) + TagsOf(b)
  {
    assert forall i :: 0 <= i < |a + b| ==> (a + b)[i] == if i < |a| then a[i] else b[i - |a|];
    if |a| > 0 {
      assert (a + b)[1..] == a[1..] + b;
      TagsOfAppend(a[1..], b);
      assert (a + b)[0] == a[0];
      assert TagsOf(a + b) == [TagOf(a[0])] + TagsOf(a[1..] + b);
      assert TagsOf(a) == [TagOf(a[0])] + TagsOf(a[1..]);
    } else {
      assert a + b == b;
    }
  }

  lemma TagsOfCons(r: Row, rows: seq<Row>)
    requires Scannable(r) && AllScannable(rows)
    ensures AllScannable([r] + rows) && TagsOf([r] + rows) == [TagOf(r)] + TagsOf(rows)
  {
    TagsOfAppend([r], rows);
    assert TagsOf([r]) == [TagOf(r)] + TagsOf([r][1..]);
  }

  lemma ContinueSameId(current: Pet, rest: seq<Row>)
    requires AllScannable(rest) && |rest| > 0 && rest[0].petId == current.id
    ensures Continue(current, rest) == Continue(WithTag(current, TagOf(rest[0])), rest[1..])
  {
    var id := current.id;
    var next := WithTag(current, TagOf(rest[0]));
    var m := RunLength(rest[1..], id);
    var n := RunLength(rest, id);
    RunOfHead(rest, id);
    TagsOfCons(rest[0], rest[1..][..m]);
    assert current.tags + TagsOf(rest[..n]) == next.tags + TagsOf(rest[1..][..m]);
  }

  lemma ContinueNewId(current: Pet, rest: seq<Row>)
    requires AllScannable(rest) && |rest| > 0 && rest[0].petId != current.id
    ensures Continue(current, rest) == [current] + Continue(SeedPet(rest[0]), rest[1..])
  {
    assert RunLength(rest, current.id) == 0;
    assert rest[..0] == [];
    assert rest[0..] == rest;
    assert current.(tags := current.tags + TagsOf(rest[..0])) == current;
    GroupStart(rest);
  }

  /** A run that starts at the head is the head followed by the run of the tail. */
  lemma RunOfHead(rows: seq<Row>, id: int)
    requires |rows| > 0 && rows[0].petId == id
    ensures RunLength(rows, id) == 1 + RunLength(rows[1..], id)
    ensures rows[..RunLength(rows, id)] == [rows[0]] + rows[1..][..RunLength(rows[1..], id)]
    ensures rows[1..][RunLength(rows[1..], id)..] == rows[RunLength(rows, id)..]
  {
  }

  lemma GroupStart(rows: seq<Row>)
    requires AllScannable(rows) && |rows| > 0
    ensures Group(rows) == Continue(SeedPet(rows[0]), rows[1..])
  {
    var id := rows[0].petId;
    var m := RunLength(rows[1..], id);
    var n := RunLength(rows, id);
    RunOfHead(rows, id);
    TagsOfCons(rows[0], rows[1..][..m]);
    assert RunPet(rows[..n]) == SeedPet(rows[0]).(tags := SeedPet(rows[0]).tags + TagsOf(rows[1..][..m]));
  }

  /** One loop step on a row that opens a new pet; `grouped` is what the loop owes. */
  lemma StepNewPet(rows: seq<Row>, i: nat, pets: seq<Pet>, current: Pet, grouped: seq<Pet>)
    requires AllScannable(rows) && i < |rows| && rows[i].petId != current.id
    requires grouped == pets + Continue(current, rows[i..])
    ensures grouped == (pets + [current]) + Continue(SeedPet(rows[i]), rows[i + 1..])
  {
    var rest := rows[i..];
    assert rest[0] == rows[i];
    assert rest[1..] == rows[i + 1..];
    ContinueNewId(current, rest);
    var tail := Continue(SeedPet(rows[i]), rows[i + 1..]);
    assert Continue(current, rest) == [current] + tail;
    assert pets + ([current] + tail) == (pets + [current]) + tail;
  }

  /** One loop step on a row that continues the current pet. */
  lemma StepSamePet(rows: seq<Row>, i: nat, pets: seq<Pet>, current: Pet)
    requires AllScannable(rows) && i < |rows| && rows[i].petId == current.id
    requires Group(rows) == pets + Continue(current, rows[i..])
    ensures Group(rows) == pets + Continue(WithTag(current, TagOf(rows[i])), rows[i + 1..])
  {
    var rest := rows[i..];
    assert rest[0] == rows[i];
    assert rest[1..] == rows[i + 1..];
    ContinueSameId(current, rest);
  }

  lemma StepFirst(rows: seq<Row>)
    requires AllScannable(rows) && 0 < |rows|
    ensures Group(rows) == [] + Continue(SeedPet(rows[0]), rows[1..])
  {
    GroupStart(rows);
  }

  lemma StepEnd(rows: seq<Row>, pets: seq<Pet>, current: Pet)
    requires AllScannable(rows)
    requires Group(rows) == pets + Continue(current, [])
    ensures Group(rows) == pets + [current]
  {
    var none: seq<Row> := [];
    assert none[..0] == [] && none[0..] == [];
    assert TagsOf(none) == [] && Group(none) == [];
    assert current.(tags := current.tags + []) == current;
    assert Continue(current, none) == [current];
  }

  /** The loop's state: the pets flushed so far and the pet being built. */
  datatype Progress = Progress(pets: seq<Pet>, current: Option<Pet>)

  /**
   * One turn of the loop on a scanned row: a new pet id flushes the current
   * pet (if any) and seeds a new one; the same id adds the row's tag.
   */
  function Advance(p: Progress, row: Row): (q: Progress)
    requires Scannable(row)
    ensures q.current.Some? && q.current.value.id == row.petId
  {
    if p.current.None? || p.current.value.id != row.petId then
      Progress(if p.current.Some? then p.pets + [p.current.value] else p.pets, Some(SeedPet(row)))
    else Progress(p.pets, Some(WithTag(p.current.value, TagOf(row))))
  }

  /** The loop's state after the rows seen so far. */
  function StatusFold(seen: seq<Row>): Progress
    requires AllScannable(seen)
    decreases |seen|
  {
    if |seen| == 0 then Progress([], None)
    else Advance(StatusFold(seen[..|seen| - 1]), seen[|seen| - 1])
  }

  /** What a state owes: the grouping of all rows is its pets, then its pet continued over the rest. */
  predicate Owes(rows: seq<Row>, i: nat, p: Progress)
    requires AllScannable(rows) && i <= |rows|
  {
    p.current.Some? && Group(rows) == p.pets + Continue(p.current.value, rows[i..])
  }

  /** A turn of the loop keeps what the state owes. */
  lemma AdvanceOwes(rows: seq<Row>, i: nat, p: Progress)
    requires AllScannable(rows) && i < |rows|
    requires (p.current.None? && i == 0 && p.pets == []) || Owes(rows, i, p)
    ensures Owes(rows, i + 1, Advance(p, rows[i]))
  {
    if p.current.None? {
      StepFirst(rows);
    } else if p.current.value.id != rows[i].petId {
      StepNewPet(rows, i, p.pets, p.current.value, Group(rows));
    } else {
      StepSamePet(rows, i, p.pets, p.current.value);
    }
  }

  /** Once a row has been seen, the state owes the grouping of the rest. */
  lemma {:induction false} StatusFoldOwes(rows: seq<Row>, i: nat)
    requires AllScannable(rows) && 0 < i <= |rows|
    ensures AllScannable(rows[..i]) && Owes(rows, i, StatusFold(rows[..i]))
  {
    StatusFoldStep(rows, i);
    if i == 1 {
      AdvanceOwes(rows, 0, Progress([], None));
    } else {
      StatusFoldOwes(rows, i - 1);
      AdvanceOwes(rows, i - 1, StatusFold(rows[..i - 1]));
    }
  }

  /** The state after i rows is one turn of the loop after the state after i - 1 rows. */
  lemma StatusFoldStep(rows: seq<Row>, i: nat)
    requires AllScannable(rows) && 0 < i <= |rows|
    ensures AllScannable(rows[..i - 1]) && AllScannable(rows[..i])
    ensures StatusFold(rows[..i]) == Advance(StatusFold(rows[..i - 1]), rows[i - 1])
  {
    assert rows[..i][..i - 1] == rows[..i - 1];
  }

  /** The loop state after all the rows, flushed, is the reference grouping. */
  lemma {:induction false} StatusFoldGroups(rows: seq<Row>)
    requires AllScannable(rows)
    ensures var p := StatusFold(rows);
      (if p.current.Some? then p.pets + [p.current.value] else p.pets) == Group(rows)
  {
    if |rows| > 0 {
      StatusFoldOwes(rows, |rows|);
      assert rows[..|rows|] == rows;
      var p := StatusFold(rows);
      assert rows[|rows|..] == [];
      StepEnd(rows, p.pets, p.current.value);
    }
  }

  /**
   * FindPetbyStatus's loop (sql_pet.go:292-345): scan each row; a row whose
   * pet id differs from the current pet's flushes the current pet and seeds a
   * new one, any other row adds its tag; the last pet is flushed at the end.
   */
  method AggregateByStatus(rows: seq<Row>) returns (r: Result<seq<Pet>, Error>)
    ensures r == ByStatusResult(rows)
  {
    var pets: seq<Pet> := [];
    var current: Option<Pet> := None;
    var i := 0;
    while i < |rows|
      invariant 0 <= i <= |rows|
      invariant AllScannable(rows[..i])
      invariant Progress(pets, current) == StatusFold(rows[..i])
    {
      var row := rows[i];
      if !Scannable(row) {
        return Err(ScanError);
      }
      assert rows[..i + 1][..i] == rows[..i];
      if current.None? || current.value.id != row.petId {
        if current.Some? {
          pets := pets + [current.value];
        }
        current := Some(SeedPet(row));
      } else {
        current := Some(WithTag(current.value, TagOf(row)));
      }
      i := i + 1;
    }
    assert rows[..i] == rows;
    StatusFoldGroups(rows);
    if current.Some? {
      pets := pets + [current.value];
    }
    return Ok(pets);
  }

  // Properties of the grouping.

  lemma {:induction false} GroupHead(rows: seq<Row>)
    requires AllScannable(rows) && |rows| > 0
    ensures |Group(rows)| > 0 && Group(rows)[0] == RunPet(rows[..RunLength(rows, rows[0].petId)])
    ensures Group(rows)[0].id == rows[0].petId
  {
  }

  /** Consecutive pets of the result have different ids: the runs are maximal. */
  lemma {:induction false} GroupAdjacentIdsDiffer(rows: seq<Row>)
    requires AllScannable(rows)
    ensures forall k :: 0 <= k < |Group(rows)| - 1 ==> Group(rows)[k].id != Group(rows)[k + 1].id
    decreases |rows|
  {
    if |rows| > 0 {
      var n := RunLength(rows, rows[0].petId);
      var rest := rows[n..];
      GroupAdjacentIdsDiffer(rest);
      if |rest| > 0 {
        GroupHead(rest);
      }
    }
  }

  /** All pets' tags in order: the tag columns of all rows, one tag per row. */
  function AllTags(pets: seq<Pet>): seq<Tag>
  {
    if |pets| == 0 then [] else pets[0].tags + AllTags(pets[1..])
  }

  lemma {:induction false} GroupKeepsEveryTag(rows: seq<Row>)
    requires AllScannable(rows)
    ensures AllTags(Group(rows)) == TagsOf(rows)
    ensures |AllTags(Group(rows))| == |rows|
    decreases |rows|
  {
    if |rows| > 0 {
      var n := RunLength(rows, rows[0].petId);
      GroupKeepsEveryTag(rows[n..]);
      assert rows[..n] + rows[n..] == rows;
      TagsOfAppend(rows[..n], rows[n..]);
      assert Group(rows)[1..] == Group(rows[n..]);
    }
  }

  /** Every pet of the result carries at least one tag (one per row of its run). */
  lemma {:induction false} GroupPetsHaveTags(rows: seq<Row>)
    requires AllScannable(rows)
    ensures forall k :: 0 <= k < |Group(rows)| ==> |Group(rows)[k].tags| > 0
    decreases |rows|
  {
    if |rows| > 0 {
      var n := RunLength(rows, rows[0].petId);
      GroupPetsHaveTags(rows[n..]);
    }
  }

  /** `ORDER BY p.id` rows: pet ids never decrease from row to row. */
  predicate SortedById(rows: seq<Row>)
  {
    forall i, j :: 0 <= i < j < |rows| ==> rows[i].petId <= rows[j].petId
  }

  lemma {:induction false} GroupIdsAtLeastFirst(rows: seq<Row>)
    requires AllScannable(rows) && SortedById(rows) && |rows| > 0
    ensures forall k :: 0 <= k < |Group(rows)| ==> Group(rows)[k].id >= rows[0].petId
    decreases |rows|
  {
    var n := RunLength(rows, rows[0].petId);
    var rest := rows[n..];
    if |rest| > 0 {
      GroupIdsAtLeastFirst(rest);
    }
  }

  /** On rows ordered by pet id, the result holds each pet id once, ascending. */
  lemma {:induction false} GroupSortedRowsGivesDistinctIds(rows: seq<Row>)
    requires AllScannable(rows) && SortedById(rows)
    ensures forall j, k :: 0 <= j < k < |Group(rows)| ==> Group(rows)[j].id < Group(rows)[k].id
    decreases |rows|
  {
    if |rows| > 0 {
      var n := RunLength(rows, rows[0].petId);
      var rest := rows[n..];
      var g := Group(rows);
      if |rest| > 0 {
        GroupSortedRowsGivesDistinctIds(rest);
        GroupIdsAtLeastFirst(rest);
        assert rest[0].petId > rows[0].petId;
        assert g[1..] == Group(rest);
        forall j, k | 0 <= j < k < |g|
          ensures g[j].id < g[k].id
        {
          if j == 0 {
            assert g[k] == Group(rest)[k - 1];
          } else {
            assert g[j] == Group(rest)[j - 1] && g[k] == Group(rest)[k - 1];
          }
        }
      }
    }
  }

  /** The pet columns of a row, as a pet made from it carries them. */
  predicate FromRow(p: Pet, r: Row)
  {
    p.id == r.petId && p.name == r.petName && p.status == r.status
    && p.category == Category(r.categoryId, r.categoryName) && p.photoUrls == DecodePhotoUrls(r.photoUrls)
  }

  /** Every pet of the result takes its columns from one of the rows. */
  lemma {:induction false} GroupPetsComeFromRows(rows: seq<Row>)
    requires AllScannable(rows)
    ensures forall k :: 0 <= k < |Group(rows)| ==> exists j :: 0 <= j < |rows| && FromRow(Group(rows)[k], rows[j])
    decreases |rows|
  {
    if |rows| > 0 {
      var n := RunLength(rows, rows[0].petId);
      var rest := rows[n..];
      var g := Group(rows);
      GroupPetsComeFromRows(rest);
      forall k | 0 <= k < |Group(rows)|
        ensures exists j :: 0 <= j < |rows| && FromRow(Group(rows)[k], rows[j])
      {
        if k == 0 {
          GroupHead(rows);
          assert rows[..n][0] == rows[0];
          assert FromRow(g[0], rows[0]);
        } else {
          assert g[k] == Group(rest)[k - 1];
          var j :| 0 <= j < |rest| && FromRow(Group(rest)[k - 1], rest[j]);
          assert rest[j] == rows[n + j];
        }
      }
    } else {
      assert Group(rows) == [];
    }
  }

  /** All rows of one pet id make one pet that carries every row's tag. */
  lemma {:induction false} GroupOfOneId(rows: seq<Row>)
    requires AllScannable(rows) && |rows| > 0
    requires forall k :: 0 <= k < |rows| ==> rows[k].petId == rows[0].petId
    ensures Group(rows) == [RunPet(rows)]
  {
    var n := RunLength(rows, rows[0].petId);
    assert n == |rows|;
    assert rows[..n] == rows;
    assert rows[n..] == [];
  }

  // ---------------------------------------------------------------------
  // FindPetbyID: the first row is consumed by the emptiness check and never
  // scanned; the loop then starts from the zero pet.

  /** The pet FindPetbyID's loop holds after the given rows, from the zero pet. */
  function Accumulate(rows: seq<Row>): (p: Pet)
    requires AllScannable(rows)
    ensures |rows| == 0 ==> p == ZeroPet
    ensures |rows| > 0 ==> p.id == rows[|rows| - 1].petId
    ensures |p.tags| <= |rows|
    decreases |rows|
  {
    if |rows| == 0 then ZeroPet
    else
      var p := Accumulate(rows[..|rows| - 1]);
      var r := rows[|rows| - 1];
      if p.id != r.petId then SeedPet(r) else WithTag(p, TagOf(r))
  }

  /** What FindPetbyID returns for a complete result set. */
  function ByIdResult(rows: seq<Row>): (r: Result<Pet, Error>)
    ensures r == Err(PetNotFound) <==> |rows| == 0
    ensures |rows| == 1 ==> r == Ok(ZeroPet)
    ensures r.Err? && |rows| > 0 ==> r.error == ScanError
    ensures r.Ok? && |rows| >= 2 ==> r.value.id == rows[|rows| - 1].petId && |r.value.tags| < |rows|
  {
    if |rows| == 0 then Err(PetNotFound)
    else if !AllScannable(rows[1..]) then Err(ScanError)
    else Ok(Accumulate(rows[1..]))
  }

  /** One more scanned row advances the loop's pet by that row. */
  lemma AccumulateStep(rows: seq<Row>, i: nat)
    requires 1 <= i < |rows| && AllScannable(rows[1..i]) && Scannable(rows[i])
    ensures AllScannable(rows[1..i + 1])
    ensures var p := Accumulate(rows[1..i]);
      Accumulate(rows[1..i + 1]) == if p.id != rows[i].petId then SeedPet(rows[i]) else WithTag(p, TagOf(rows[i]))
  {
    assert rows[1..i + 1] == rows[1..i] + [rows[i]];
    assert rows[1..i + 1][..i - 1] == rows[1..i];
  }

  /**
   * FindPetbyID's row handling (sql_pet.go:74-114): the emptiness test
   * advances past the first row, and the loop scans the rows after it.
   */
  method AggregateById(rows: seq<Row>) returns (r: Result<Pet, Error>)
    ensures r == ByIdResult(rows)
  {
    if |rows| == 0 {
      return Err(PetNotFound);
    }
    var current := ZeroPet;
    var i := 1;
    while i < |rows|
      invariant 1 <= i <= |rows|
      invariant AllScannable(rows[1..i])
      invariant current == Accumulate(rows[1..i])
    {
      var row := rows[i];
      if !Scannable(row) {
        assert rows[1..][i - 1] == row;
        return Err(ScanError);
      }
      AccumulateStep(rows, i);
      if current.id != row.petId {
        current := SeedPet(row);
      } else {
        current := WithTag(current, TagOf(row));
      }
      i := i + 1;
    }
    assert rows[1..i] == rows[1..];
    return Ok(current);
  }

  /** On rows of one non-zero pet id the loop yields the run's pet. */
  lemma {:induction false} AccumulateOneId(rows: seq<Row>, id: int)
    requires AllScannable(rows) && |rows| > 0 && id != 0
    requires forall k :: 0 <= k < |rows| ==> rows[k].petId == id
    ensures Accumulate(rows) == RunPet(rows)
    decreases |rows|
  {
    var front := rows[..|rows| - 1];
    var last := rows[|rows| - 1];
    if |front| > 0 {
      AccumulateOneId(front, id);
      assert front + [last] == rows;
      TagsOfAppend(front, [last]);
    }
  }

  /** On rows of pet id 0 the loop never reseeds: the zero pet gathers the tags. */
  lemma {:induction false} AccumulateZeroId(rows: seq<Row>)
    requires AllScannable(rows)
    requires forall k :: 0 <= k < |rows| ==> rows[k].petId == 0
    ensures Accumulate(rows) == ZeroPet.(tags := TagsOf(rows))
    decreases |rows|
  {
    if |rows| > 0 {
      var front := rows[..|rows| - 1];
      var last := rows[|rows| - 1];
      AccumulateZeroId(front);
      assert front + [last] == rows;
      TagsOfAppend(front, [last]);
    }
  }

  /**
   * FindPetbyID on the k rows of one pet id: no rows is ErrPetNotFound, one
   * row is the zero pet (the row is never scanned, so even a tag-less row
   * passes), and k >= 2 rows give the pet of rows 2..k with their k - 1
   * tags; the first row's tag is lost.
   */
  lemma ByIdOnOnePet(rows: seq<Row>, id: int)
    requires forall k :: 0 <= k < |rows| ==> rows[k].petId == id
    ensures |rows| == 0 ==> ByIdResult(rows) == Err(PetNotFound)
    ensures |rows| == 1 ==> ByIdResult(rows) == Ok(ZeroPet)
    ensures |rows| >= 2 && AllScannable(rows[1..]) && id != 0 ==>
      ByIdResult(rows) == Ok(RunPet(rows[1..]))
      && |ByIdResult(rows).value.tags| == |rows| - 1
    ensures |rows| >= 2 && AllScannable(rows[1..]) && id == 0 ==>
      ByIdResult(rows) == Ok(ZeroPet.(tags := TagsOf(rows[1..])))
    ensures |rows| >= 2 && !AllScannable(rows[1..]) ==> ByIdResult(rows) == Err(ScanError)
  {
    if |rows| >= 2 && AllScannable(rows[1..]) {
      if id != 0 {
        AccumulateOneId(rows[1..], id);
      } else {
        AccumulateZeroId(rows[1..]);
      }
    }
  }

  /** A run's pet carries its first row's tag ahead of the rest of the run's tags. */
  lemma RunPetTags(rows: seq<Row>)
    requires AllScannable(rows) && |rows| >= 2
    ensures RunPet(rows).tags == [TagOf(rows[0])] + RunPet(rows[1..]).tags
  {
    assert rows == [rows[0]] + rows[1..];
    TagsOfCons(rows[0], rows[1..]);
  }

  /**
   * Against the grouping FindPetbyStatus applies, FindPetbyID on the rows of
   * one pet returns the group of all rows but the first: the first row's
   * tag is lost (RunPetTags).
   */
  lemma ByIdDropsFirstRow(rows: seq<Row>, id: int)
    requires AllScannable(rows) && |rows| >= 2 && id != 0
    requires forall k :: 0 <= k < |rows| ==> rows[k].petId == id
    ensures Group(rows) == [RunPet(rows)]
    ensures Group(rows[1..]) == [RunPet(rows[1..])]
    ensures ByIdResult(rows) == Ok(RunPet(rows[1..]))
  {
    var rest := rows[1..];
    forall k | 0 <= k < |rest|
      ensures Scannable(rest[k]) && rest[k].petId == id
    {
      assert rest[k] == rows[k + 1];
    }
    GroupOfOneId(rows);
    GroupOfOneId(rest);
    AccumulateOneId(rest, id);
  }
}
