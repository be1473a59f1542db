/**
 * The pet persistence adapter (internal/db/adapter/sql_pet.go) against an
 * in-memory database: a store whose fields are the tables, one small method
 * per SQL statement the adapter issues, and the adapter's operations as
 * methods that issue those statements in the source's order, with no
 * transaction around them.
 */
module SqlPet {
  import opened Wrappers
  import opened Errors
  import opened Models
  import opened PetRows
  import opened PetTables
  import opened PetStatements

  /** The statements the adapter issues; a store may be set up so that some of them fail. */
  datatype Statement =
    | SelectCategory   // SELECT id FROM category WHERE name = $1 LIMIT 1
    | InsertPet        // INSERT INTO pet ... RETURNING id
    | InsertTag        // INSERT INTO tags (name) ... ON CONFLICT (name) DO NOTHING RETURNING id
    | SelectTag        // SELECT id FROM tags WHERE name = $1
    | InsertPetTag     // INSERT INTO pet_tags (pet_id, tag_id)
    | UpdateColumns    // UpdatePet's UPDATE with COALESCE/NULLIF
    | DeletePetTags    // DELETE FROM pet_tags WHERE pet_id = $1
    | UpdateForm       // UpdatePetForm's UPDATE pet Set ...
    | SelectJoin       // the pet/category/tags join of both readers

  /** What a failing statement reports (a driver or connection error). */
  const StatementFailed: Error := Failure("driver: bad connection")
  /** An insert whose pet or tag (or category) reference does not exist. */
  const ForeignKeyViolation: Error := Failure("pq: insert or update violates foreign key constraint")
  /** `UPDATE pet Set  WHERE id = $1`, the text built when no field is given. */
  const EmptySetSyntaxError: Error := Failure("pq: syntax error at or near \"WHERE\"")
  /** sql_pet.go:143 and 199: the category name is not in table category. */
  const BadCategory: Error := Failure("некорректно введена категория")
  /** sql_pet.go:44. */
  const NoRowsUpdated: Error := Failure("no rows were updated, possibly invalid ID")

  /** The text an error is wrapped in by fmt.Errorf("<prefix>%v", err). */
  function Wrap(prefix: string, e: Error): (w: Error)
    ensures Message(w) == prefix + Message(e)
    ensures w != PetNotFound && w != NoRows
  {
    Failure(prefix + Message(e))
  }

  /** The prefixes AddPet and UpdatePet give the errors of their tag loops. */
  datatype TagMessages = TagMessages(create: string, lookup: string, link: string)

  const AddPetMessages: TagMessages :=
    TagMessages("addpet queryTag, ", "addpet queryTag when taID=0, ", "addpet queryTagPet, ")
  const UpdatePetMessages: TagMessages :=
    TagMessages("updatepet queryTag, ", "updatepet queryTag: ", "addpet queryTagPet, ")

  /** The id CheckFields reports for a category name: its id, or 0 when there is none. */
  function CategoryIdOf(cats: seq<Category>, name: string): int
  {
    match FindCategoryByName(cats, name)
    case Some(c) => c.id
    case None => 0
  }

  /** The new row AddPet inserts for a pet whose category resolved to `category`. */
  function NewRecord(id: int, category: int, pet: Pet): PetRecord
  {
    PetRecord(id, category, pet.name, EncodePhotoUrls(pet.photoUrls), pet.status)
  }

  /**
   * What the tag loop has left behind when it stops with an error at name
   * `done`: the tags of the names before it (and possibly that name's new
   * row), and one link per earlier name after the links it started from.
   */
  predicate StoppedAt(t0: TagTable, base: seq<Link>, petId: int, names: seq<string>, done: nat,
                      tags: TagTable, links: seq<Link>)
  {
    && done < |names|
    && (tags == FindOrCreateAll(t0, names[..done]) || tags == FindOrCreateAll(t0, names[..done + 1]))
    && links == base + LinksFor(petId, FindOrCreateAll(t0, names[..done]).rows, names[..done])
  }

  class PetStore {
    /** Statements that fail on this store. */
    const broken: set<Statement>
    /** Table category; item operations only read it. */
    const categories: seq<Category>
    /** Table tags and its id sequence. */
    var tags: TagTable
    /** Table pet, in id order, and its id sequence. */
    var pets: seq<PetRecord>
    var nextPetId: int
    /** Table pet_tags, in insertion order. */
    var links: seq<Link>

    /** The constraints the schema enforces: unique tag names, serial ids, foreign keys. */
    ghost predicate Valid()
      reads this
    {
      && ValidTags(tags)
      && PetIdsAscending(pets)
      && nextPetId >= 1
      && (forall k :: 0 <= k < |pets| ==> 1 <= pets[k].id < nextPetId)
      && (forall k :: 0 <= k < |categories| ==> categories[k].id >= 1)
      && (forall i, j :: 0 <= i < j < |categories| ==> categories[i].id != categories[j].id)
      && (forall k :: 0 <= k < |pets| ==> FindCategoryById(categories, pets[k].category).Some?)
      && (forall k :: 0 <= k < |links| ==> HasPet(pets, links[k].petId))
      && (forall k :: 0 <= k < |links| ==> FindTagById(tags.rows, links[k].tagId).Some?)
    }

    /** An empty database over the given categories. */
    constructor (broken: set<Statement>, categories: seq<Category>)
      requires forall k :: 0 <= k < |categories| ==> categories[k].id >= 1
      requires forall i, j :: 0 <= i < j < |categories| ==> categories[i].id != categories[j].id
      ensures Valid()
      ensures this.broken == broken && this.categories == categories
      ensures tags == TagTable([], 1) && pets == [] && links == [] && nextPetId == 1
    {
      this.broken := broken;
      this.categories := categories;
      tags := TagTable([], 1);
      pets := [];
      nextPetId := 1;
      links := [];
    }

    // -------------------------------------------------------------------
    // One method per statement.

    /** `SELECT id FROM category WHERE name = $1 LIMIT 1`. */
    method SelectCategoryId(name: string) returns (r: Result<int, Error>)
      ensures SelectCategory in broken ==> r == Err(StatementFailed)
      ensures SelectCategory !in broken ==>
        r == match FindCategoryByName(categories, name) case Some(c) => Ok(c.id) case None => Err(NoRows)
    {
      if SelectCategory in broken {
        return Err(StatementFailed);
      }
      var found := FindCategoryByName(categories, name);
      if found.Some? {
        r := Ok(found.value.id);
      } else {
        r := Err(NoRows);
      }
    }

    /**
     * CheckFields(categoryTable, name, "name") (sql_pet.go:118-134): the
     * category's id, or 0 with no error when no row matches.
     */
    method CheckFields(name: string) returns (id: int, err: Option<Error>)
      requires Valid()
      ensures SelectCategory in broken ==> id == 0 && err == Some(StatementFailed)
      ensures SelectCategory !in broken ==> err.None? && id == CategoryIdOf(categories, name)
      ensures err.None? ==> (id == 0 <==> FindCategoryByName(categories, name).None?)
    {
      var r := SelectCategoryId(name);
      if r.Err? {
        if r.error == NoRows {
          return 0, None;
        }
        return 0, Some(r.error);
      }
      id, err := r.value, None;
    }

    /** AddPet's `INSERT INTO pet (category, name, photoUrls, status) ... RETURNING id`. */
    method InsertPetRow(category: int, name: string, urls: string, status: string) returns (r: Result<int, Error>)
      requires Valid()
      modifies this
      ensures Valid()
      ensures tags == old(tags) && links == old(links)
      ensures InsertPet !in broken && FindCategoryById(categories, category).Some? ==>
        r == Ok(old(nextPetId))
        && pets == old(pets) + [PetRecord(old(nextPetId), category, name, urls, status)]
        && nextPetId == old(nextPetId) + 1
      ensures InsertPet in broken ==> r == Err(StatementFailed) && unchanged(this)
      ensures InsertPet !in broken && FindCategoryById(categories, category).None? ==>
        r == Err(ForeignKeyViolation) && unchanged(this)
    {
      if InsertPet in broken {
        return Err(StatementFailed);
      }
      if FindCategoryById(categories, category).None? {
        return Err(ForeignKeyViolation);
      }
      var id := nextPetId;
      ghost var before := pets;
      pets := pets + [PetRecord(id, category, name, urls, status)];
      nextPetId := nextPetId + 1;
      forall k | 0 <= k < |links|
        ensures HasPet(pets, links[k].petId)
      {
        var j :| 0 <= j < |before| && before[j].id == links[k].petId;
        assert pets[j] == before[j];
      }
      r := Ok(id);
    }

    /**
     * `INSERT INTO tags (name) VALUES ($1) ON CONFLICT (name) DO NOTHING
     * RETURNING id`: a new row and its id, or no row when the name exists.
     */
    method InsertTagOnConflict(name: string) returns (r: Result<int, Error>)
      requires Valid()
      modifies this`tags
      ensures Valid()
      ensures InsertTag in broken ==> r == Err(StatementFailed) && tags == old(tags)
      ensures InsertTag !in broken ==> tags == FindOrCreate(old(tags), name)
      ensures InsertTag !in broken ==>
        r == if FindTag(old(tags).rows, name).Some? then Err(NoRows) else Ok(old(tags).next)
      ensures r.Ok? ==> r.value >= 1 && TagIdOf(tags.rows, name) == r.value
    {
      if InsertTag in broken {
        return Err(StatementFailed);
      }
      FindOrCreateFacts(tags, name);
      if FindTag(tags.rows, name).Some? {
        return Err(NoRows);
      }
      var id := tags.next;
      ghost var before := tags.rows;
      FindTagAppendNew(tags.rows, Tag(id, name));
      LinksResolveInExtended(links, before, [Tag(id, name)]);
      tags := FindOrCreate(tags, name);
      r := Ok(id);
    }

    /** `SELECT id FROM tags WHERE name = $1`. */
    method SelectTagIdByName(name: string) returns (r: Result<int, Error>)
      ensures SelectTag in broken ==> r == Err(StatementFailed)
      ensures SelectTag !in broken ==>
        r == if FindTag(tags.rows, name).Some? then Ok(TagIdOf(tags.rows, name)) else Err(NoRows)
    {
      if SelectTag in broken {
        return Err(StatementFailed);
      }
      var found := FindTag(tags.rows, name);
      if found.Some? {
        r := Ok(found.value.id);
      } else {
        r := Err(NoRows);
      }
    }

    /** `INSERT INTO pet_tags (pet_id, tag_id) VALUES ($1, $2)`, with both foreign keys checked. */
    method InsertPetTagRow(petId: int, tagId: int) returns (err: Option<Error>)
      requires Valid()
      modifies this`links
      ensures Valid()
      ensures InsertPetTag in broken ==> err == Some(StatementFailed) && links == old(links)
      ensures InsertPetTag !in broken && HasPet(pets, petId) && FindTagById(tags.rows, tagId).Some? ==>
        err.None? && links == old(links) + [Link(petId, tagId)]
      ensures InsertPetTag !in broken && !(HasPet(pets, petId) && FindTagById(tags.rows, tagId).Some?) ==>
        err == Some(ForeignKeyViolation) && links == old(links)
    {
      if InsertPetTag in broken {
        return Some(StatementFailed);
      }
      if !(HasPet(pets, petId) && FindTagById(tags.rows, tagId).Some?) {
        return Some(ForeignKeyViolation);
      }
      links := links + [Link(petId, tagId)];
      err := None;
    }

    /**
     * UpdatePet's statement (sql_pet.go:202-209): name, category and status
     * are kept when their parameter is empty or 0; photourls always takes $4.
     * No matching row is not an error.
     */
    method UpdatePetColumns(name: string, category: int, status: string, urls: string, id: int)
      returns (err: Option<Error>)
      requires Valid()
      modifies this`pets
      ensures Valid()
      ensures UpdateColumns in broken ==> err == Some(StatementFailed) && pets == old(pets)
      ensures (UpdateColumns !in broken && category != 0 && FindCategoryById(categories, category).None?
               && HasPet(pets, id)) ==> err == Some(ForeignKeyViolation) && pets == old(pets)
      ensures (UpdateColumns !in broken
               && (category == 0 || FindCategoryById(categories, category).Some? || !HasPet(old(pets), id))) ==>
        err.None? && pets == CoalesceWhere(old(pets), id, name, category, status, urls)
    {
      if UpdateColumns in broken {
        return Some(StatementFailed);
      }
      if category != 0 && FindCategoryById(categories, category).None? && HasPet(pets, id) {
        return Some(ForeignKeyViolation);
      }
      ghost var before := pets;
      pets := CoalesceWhere(pets, id, name, category, status, urls);
      SameIdsSameHasPet(before, pets);
      err := None;
    }

    /** `DELETE FROM pet_tags WHERE pet_id = $1`. */
    method DeleteLinksOf(petId: int) returns (err: Option<Error>)
      requires Valid()
      modifies this`links
      ensures Valid()
      ensures DeletePetTags in broken ==> err == Some(StatementFailed) && links == old(links)
      ensures DeletePetTags !in broken ==> err.None? && links == WithoutPet(old(links), petId)
    {
      if DeletePetTags in broken {
        return Some(StatementFailed);
      }
      ghost var before := links;
      links := WithoutPet(links, petId);
      forall k | 0 <= k < |links|
        ensures HasPet(pets, links[k].petId) && FindTagById(tags.rows, links[k].tagId).Some?
      {
        assert links[k] in before;
        var j :| 0 <= j < |before| && before[j] == links[k];
      }
      err := None;
    }

    /**
     * UpdatePetForm's `UPDATE pet Set <clauses> WHERE id = $n`: the number
     * of rows it changed; with no clause the text is not valid SQL.
     */
    method ExecUpdateForm(assigns: seq<Assignment>, id: int) returns (r: Result<int, Error>)
      requires Valid()
      modifies this`pets
      ensures Valid()
      ensures UpdateForm in broken ==> r == Err(StatementFailed) && pets == old(pets)
      ensures UpdateForm !in broken && |assigns| == 0 ==> r == Err(EmptySetSyntaxError) && pets == old(pets)
      ensures UpdateForm !in broken && |assigns| > 0 ==>
        r == Ok(if HasPet(old(pets), id) then 1 else 0) && pets == AssignWhere(old(pets), id, assigns)
    {
      if UpdateForm in broken {
        return Err(StatementFailed);
      }
      if |assigns| == 0 {
        return Err(EmptySetSyntaxError);
      }
      ghost var before := pets;
      var affected := if HasPet(pets, id) then 1 else 0;
      pets := AssignWhere(pets, id, assigns);
      forall k | 0 <= k < |pets|
        ensures pets[k].id == before[k].id && pets[k].category == before[k].category
      {
        AssignAllKeeps(before[k], assigns);
      }
      SameIdsSameHasPet(before, pets);
      r := Ok(affected);
    }

    /** The join both readers run, filtered by id or by status. */
    method QueryJoin(f: Filter) returns (r: Result<seq<Row>, Error>)
      ensures SelectJoin in broken ==> r == Err(StatementFailed)
      ensures SelectJoin !in broken ==> r == Ok(JoinRows(pets, categories, tags.rows, links, f))
    {
      if SelectJoin in broken {
        return Err(StatementFailed);
      }
      r := Ok(JoinRows(pets, categories, tags.rows, links, f));
    }

    // -------------------------------------------------------------------
    // The adapter's operations.

    /**
     * UpdatePetForm (sql_pet.go:13-48): the partial update of the given
     * non-empty fields; zero affected rows is an error.
     */
    method UpdatePetForm(name: string, status: string, petID: int) returns (err: Option<Error>)
      requires Valid()
      modifies this`pets
      ensures Valid()
      ensures err.None? <==> UpdateForm !in broken && (name != "" || status != "") && HasPet(old(pets), petID)
      ensures err.None? ==> pets == AssignWhere(old(pets), petID, FormAssignments(name, status))
      ensures UpdateForm !in broken && (name != "" || status != "") && !HasPet(old(pets), petID) ==>
        err == Some(NoRowsUpdated)
      ensures UpdateForm !in broken && name == "" && status == "" ==> err == Some(EmptySetSyntaxError)
      ensures err.Some? ==> pets == AssignWhere(old(pets), petID, FormAssignments(name, status)) || pets == old(pets)
    {
      var query, params := BuildUpdatePetForm(name, status, petID);
      // The statement runs `assigns`: the values in params[..|params| - 1],
      // one per SET clause of `query` (BuildUpdatePetForm's contract).
      var assigns := FormAssignments(name, status);
      var result := ExecUpdateForm(assigns, petID);
      if result.Err? {
        return Some(result.error);
      }
      if result.value == 0 {
        return Some(NoRowsUpdated);
      }
      err := None;
    }

    /**
     * FindPetbyID (sql_pet.go:50-115): the join for one id, folded by the
     * loop that skips the first row.
     */
    method FindPetbyID(petid: int) returns (r: Result<Pet, Error>)
      ensures SelectJoin in broken ==> r == Err(Wrap("failed to execute query: ", StatementFailed))
      ensures SelectJoin !in broken ==> r == ByIdResult(JoinRows(pets, categories, tags.rows, links, IdIs(petid)))
    {
      var rows := QueryJoin(IdIs(petid));
      if rows.Err? {
        return Err(Wrap("failed to execute query: ", rows.error));
      }
      r := AggregateById(rows.value);
    }

    /**
     * FindPetbyStatus (sql_pet.go:256-346): the join for the given statuses,
     * grouped into one pet per run of rows with the same id. An empty status
     * list would build `IN ()`; callers never pass one.
     */
    method FindPetbyStatus(statuses: seq<string>) returns (r: Result<seq<Pet>, Error>)
      requires |statuses| > 0
      ensures SelectJoin in broken ==> r == Err(Wrap("failed to execute query: ", StatementFailed))
      ensures SelectJoin !in broken ==>
        r == ByStatusResult(JoinRows(pets, categories, tags.rows, links, StatusIn(statuses)))
    {
      var placeholders, list, args := BuildInList(statuses);
      var rows := QueryJoin(StatusIn(args));
      if rows.Err? {
        return Err(Wrap("failed to execute query: ", rows.error));
      }
      r := AggregateByStatus(rows.value);
    }

    /** ResolveTag fails on tags `t`: the insert fails, or the name exists and the lookup fails. */
    predicate ResolveFails(t: TagTable, name: string)
    {
      InsertTag in broken || (FindTag(t.rows, name).Some? && SelectTag in broken)
    }

    /** One turn of the tag loop fails on tags `t`: the name does not resolve, or its link cannot be written. */
    predicate LinkFails(petId: int, t: TagTable, name: string)
      reads this`pets
    {
      ResolveFails(t, name) || InsertPetTag in broken || !HasPet(pets, petId)
    }

    /** Name `i` of the tag loop over `names`, started on tags `t0`, does not resolve. */
    predicate ResolveFailsAt(t0: TagTable, names: seq<string>, i: nat)
    {
      i < |names| && ResolveFails(FindOrCreateAll(t0, names[..i]), names[i])
    }

    /**
     * The same in closed form: the insert fails, or the name already has a
     * row at its turn (the table had it, or an earlier name was the same)
     * and the lookup fails.
     */
    lemma ResolveFailsAtClosedForm(t0: TagTable, names: seq<string>, i: nat)
      requires i < |names|
      ensures ResolveFailsAt(t0, names, i) <==>
        InsertTag in broken || (SelectTag in broken && ExistingAtTurn(t0, names, i))
    {
      ExistingAtTurnFound(t0, names, i);
    }

    /** Turn `i` of the tag loop over `names`, started on tags `t0`, fails. */
    predicate FailsAt(petId: int, t0: TagTable, names: seq<string>, i: nat)
      reads this`pets
    {
      ResolveFailsAt(t0, names, i) || (i < |names| && (InsertPetTag in broken || !HasPet(pets, petId)))
    }

    /**
     * One tag of the loop (sql_pet.go:159-177, 224-242): try to create the
     * name; when that returns no row, look the existing one up. Any other
     * error of the insert, or an error of the lookup, is returned wrapped.
     */
    method ResolveTag(name: string, msgs: TagMessages) returns (tagId: int, err: Option<Error>)
      requires Valid()
      modifies this`tags
      ensures Valid()
      ensures err.None? ==> tags == FindOrCreate(old(tags), name)
      ensures err.None? ==> tagId == TagIdOf(tags.rows, name) && FindTagById(tags.rows, tagId).Some?
      ensures err.Some? ==> tags == old(tags) || tags == FindOrCreate(old(tags), name)
      ensures err.Some? ==> err == Some(Wrap(msgs.create, StatementFailed)) || err == Some(Wrap(msgs.lookup, StatementFailed))
      ensures ResolveFails(old(tags), name) ==> err.Some?
      ensures err.Some? ==> ResolveFails(old(tags), name)
    {
      FindOrCreateFacts(tags, name);
      ghost var t0 := old(tags);
      var created := InsertTagOnConflict(name);
      ghost var known := FindTag(t0.rows, name).Some?;
      assert InsertTag in broken ==> created == Err(StatementFailed);
      assert InsertTag !in broken && known ==> created == Err(NoRows) && tags == t0;
      assert InsertTag !in broken && !known ==> created.Ok? && created.value >= 1;
      if created.Err? && Message(created.error) != "sql: no rows in result set" {
        return 0, Some(Wrap(msgs.create, created.error));
      }
      tagId := 0;
      if created.Ok? {
        tagId := created.value;
      }
      if tagId == 0 {
        var found := SelectTagIdByName(name);
        if found.Err? {
          return 0, Some(Wrap(msgs.lookup, found.error));
        }
        tagId := found.value;
      }
      FindTagByIdIn(tags.rows, FindTag(tags.rows, name).value);
      err := None;
    }

    /**
     * One turn of the tag loop (sql_pet.go:159-185, 224-250): resolve the
     * name to a tag id, then link it to the pet; a failed link is wrapped.
     */
    method LinkTag(petId: int, name: string, msgs: TagMessages) returns (err: Option<Error>)
      requires Valid()
      modifies this`tags, this`links
      ensures Valid()
      ensures err.None? ==> tags == FindOrCreate(old(tags), name)
      ensures err.None? ==> links == old(links) + [Link(petId, TagIdOf(tags.rows, name))]
      ensures err.Some? ==> links == old(links) && (tags == old(tags) || tags == FindOrCreate(old(tags), name))
      ensures err.Some? <==> LinkFails(petId, old(tags), name)
    {
      var tagId, e := ResolveTag(name, msgs);
      if e.Some? {
        return e;
      }
      var linked := InsertPetTagRow(petId, tagId);
      if linked.Some? {
        return Some(Wrap(msgs.link, linked.value));
      }
      err := None;
    }

    /**
     * The tag loop of AddPet and UpdatePet (sql_pet.go:158-186, 223-251):
     * for each tag name, create it or find the existing one, then link it
     * to the pet. The first error ends the loop; what was written stays.
     */
    method LinkTags(petId: int, petTags: seq<Tag>, msgs: TagMessages) returns (err: Option<Error>, ghost done: nat)
      requires Valid()
      modifies this`tags, this`links
      ensures Valid()
      ensures err.None? ==> tags == FindOrCreateAll(old(tags), TagNames(petTags))
      ensures err.None? ==> links == old(links) + LinksFor(petId, tags.rows, TagNames(petTags))
      ensures err.Some? ==> done < |petTags|
      ensures err.Some? ==> (tags == FindOrCreateAll(old(tags), TagNames(petTags)[..done])
                             || tags == FindOrCreateAll(old(tags), TagNames(petTags)[..done + 1]))
      ensures err.Some? ==> (links == old(links)
        + LinksFor(petId, FindOrCreateAll(old(tags), TagNames(petTags)[..done]).rows, TagNames(petTags)[..done]))
      ensures (InsertTag !in broken && SelectTag !in broken && InsertPetTag !in broken && HasPet(pets, petId))
        ==> err.None?
      ensures |petTags| > 0 && !HasPet(pets, petId) ==> err.Some?
      ensures |petTags| > 0 && (InsertTag in broken || InsertPetTag in broken) ==> err.Some?
      ensures err.Some? ==> FailsAt(petId, old(tags), TagNames(petTags), done)
      ensures err.Some? ==> forall j :: 0 <= j < done ==> !FailsAt(petId, old(tags), TagNames(petTags), j)
      ensures err.None? ==> forall j :: 0 <= j < |petTags| ==> !FailsAt(petId, old(tags), TagNames(petTags), j)
    {
      ghost var t0 := tags;
      err, done := LinkTagsLoop(petId, petTags, msgs);
      ghost var names := TagNames(petTags);
      if err.Some? {
        if SelectTag in broken {
          GrewByOnePerName(t0, names, done);
        }
      } else {
        assert names[..|petTags|] == names;
        if SelectTag in broken {
          GrewByOnePerName(t0, names, |petTags|);
        }
        if |petTags| > 0 {
          assert !ResolveFailsAt(t0, names, 0);
        }
      }
    }

    /**
     * The loop of LinkTags, with where it stopped: at the first name whose
     * turn fails. Every earlier turn ran the insert and the link statement,
     * and, when the lookup fails, each of them created its row.
     */
    method LinkTagsLoop(petId: int, petTags: seq<Tag>, msgs: TagMessages) returns (err: Option<Error>, ghost done: nat)
      requires Valid()
      modifies this`tags, this`links
      ensures Valid()
      ensures err.None? ==> tags == FindOrCreateAll(old(tags), TagNames(petTags))
      ensures err.None? ==> links == old(links) + LinksFor(petId, tags.rows, TagNames(petTags))
      ensures err.None? && |petTags| > 0 ==> InsertTag !in broken && InsertPetTag !in broken && HasPet(pets, petId)
      ensures err.None? && SelectTag in broken ==> |tags.rows| == |old(tags).rows| + |petTags|
      ensures err.Some? ==> done < |petTags|
      ensures err.Some? ==> (tags == FindOrCreateAll(old(tags), TagNames(petTags)[..done])
                             || tags == FindOrCreateAll(old(tags), TagNames(petTags)[..done + 1]))
      ensures err.Some? ==> (links == old(links)
        + LinksFor(petId, FindOrCreateAll(old(tags), TagNames(petTags)[..done]).rows, TagNames(petTags)[..done]))
      ensures err.Some? ==> FailsAt(petId, old(tags), TagNames(petTags), done)
      ensures err.Some? && done > 0 ==> InsertTag !in broken && InsertPetTag !in broken && HasPet(pets, petId)
      ensures err.Some? && SelectTag in broken ==>
        |FindOrCreateAll(old(tags), TagNames(petTags)[..done]).rows| == |old(tags).rows| + done
    {
      ghost var names := TagNames(petTags);
      ghost var t0 := tags;
      ghost var l0 := links;
      var i := 0;
      assert names[..0] == [];
      err, done := None, 0;
      while i < |petTags|
        invariant 0 <= i <= |petTags|
        invariant Valid()
        invariant tags == FindOrCreateAll(t0, names[..i])
        invariant links == l0 + LinksFor(petId, tags.rows, names[..i])
        invariant !HasPet(pets, petId) ==> i == 0
        invariant i > 0 ==> InsertTag !in broken && InsertPetTag !in broken && HasPet(pets, petId)
        invariant SelectTag in broken ==> |tags.rows| == |t0.rows| + i
      {
        ghost var tagsBefore, linksBefore := tags, links;
        var e := LinkTag(petId, petTags[i].name, msgs);
        LinkTagAdvances(petId, t0, l0, names, i, tagsBefore, linksBefore, tags, links, e.None?);
        if e.Some? {
          assert FailsAt(petId, t0, names, i);
          err, done := e, i;
          break;
        }
        i := i + 1;
      }
      if err.None? {
        assert names[..i] == names;
      }
    }

    /**
     * AddPet (sql_pet.go:136-188): resolve the category by name (a missing
     * one is an error before anything is written), insert the pet row with
     * the joined photo URLs, then create or find and link each tag.
     */
    method AddPet(pet: Pet) returns (err: Option<Error>, ghost done: nat)
      requires Valid()
      modifies this
      ensures Valid()
      ensures (SelectCategory in broken || FindCategoryByName(categories, pet.category.name).None?) ==>
        err.Some? && pets == old(pets) && tags == old(tags) && links == old(links) && nextPetId == old(nextPetId)
      ensures err.None? ==>
        && pets == old(pets) + [NewRecord(old(nextPetId), CategoryIdOf(categories, pet.category.name), pet)]
        && nextPetId == old(nextPetId) + 1
        && tags == FindOrCreateAll(old(tags), TagNames(pet.tags))
        && links == old(links) + LinksFor(old(nextPetId), tags.rows, TagNames(pet.tags))
      ensures err.Some? ==>
        pets == old(pets) || pets == old(pets) + [NewRecord(old(nextPetId), CategoryIdOf(categories, pet.category.name), pet)]
      ensures old(tags.rows) <= tags.rows && old(links) <= links
      ensures (SelectCategory !in broken && InsertPet !in broken && InsertTag !in broken && SelectTag !in broken
               && InsertPetTag !in broken && FindCategoryByName(categories, pet.category.name).Some?) ==> err.None?
      ensures InsertPet in broken ==>
        err.Some? && pets == old(pets) && tags == old(tags) && links == old(links) && nextPetId == old(nextPetId)
      ensures SelectCategory !in broken && InsertPet !in broken && FindCategoryByName(categories, pet.category.name).Some? ==>
        && pets == old(pets) + [NewRecord(old(nextPetId), CategoryIdOf(categories, pet.category.name), pet)]
        && nextPetId == old(nextPetId) + 1
        && (err.Some? ==> StoppedAt(old(tags), old(links), old(nextPetId), TagNames(pet.tags), done, tags, links)
                          && FailsAt(old(nextPetId), old(tags), TagNames(pet.tags), done))
        && (err.None? <==> forall j :: 0 <= j < |pet.tags| ==> !FailsAt(old(nextPetId), old(tags), TagNames(pet.tags), j))
        && (|pet.tags| > 0 && (InsertTag in broken || InsertPetTag in broken) ==> err.Some?)
    {
      done := 0;
      var idCategory, e := CheckFields(pet.category.name);
      if e.Some? {
        return e, 0;
      }
      if idCategory == 0 {
        return Some(BadCategory), 0;
      }
      FindCategoryByIdIn(categories, FindCategoryByName(categories, pet.category.name).value);
      err, done := InsertAndLinkTags(idCategory, pet);
    }

    /**
     * AddPet after its category check (sql_pet.go:151-187): insert the pet
     * row with the joined photo URLs, then run the tag loop for the new id.
     */
    method InsertAndLinkTags(category: int, pet: Pet) returns (err: Option<Error>, ghost done: nat)
      requires Valid() && FindCategoryById(categories, category).Some?
      modifies this
      ensures Valid()
      ensures old(tags.rows) <= tags.rows && old(links) <= links
      ensures InsertPet in broken ==>
        err.Some? && pets == old(pets) && tags == old(tags) && links == old(links) && nextPetId == old(nextPetId)
      ensures InsertPet !in broken ==>
        && pets == old(pets) + [NewRecord(old(nextPetId), category, pet)]
        && nextPetId == old(nextPetId) + 1
        && (err.None? ==> tags == FindOrCreateAll(old(tags), TagNames(pet.tags))
                          && links == old(links) + LinksFor(old(nextPetId), tags.rows, TagNames(pet.tags)))
        && (err.Some? ==> StoppedAt(old(tags), old(links), old(nextPetId), TagNames(pet.tags), done, tags, links)
                          && FailsAt(old(nextPetId), old(tags), TagNames(pet.tags), done))
        && (err.None? <==> forall j :: 0 <= j < |pet.tags| ==> !FailsAt(old(nextPetId), old(tags), TagNames(pet.tags), j))
        && (|pet.tags| > 0 && (InsertTag in broken || InsertPetTag in broken) ==> err.Some?)
      ensures (InsertPet !in broken && InsertTag !in broken && SelectTag !in broken && InsertPetTag !in broken) ==> err.None?
    {
      done := 0;
      var urls := EncodePhotoUrls(pet.photoUrls);
      var inserted := InsertPetRow(category, pet.name, urls, pet.status);
      if inserted.Err? {
        return Some(Wrap("addpet qurePet, ", inserted.error)), 0;
      }
      assert pets[|pets| - 1].id == inserted.value;
      ghost var t0 := tags;
      FindOrCreateAllValid(t0, TagNames(pet.tags));
      err, done := LinkTags(inserted.value, pet.tags, AddPetMessages);
      if err.Some? {
        FindOrCreateAllValid(t0, TagNames(pet.tags)[..done]);
        FindOrCreateAllValid(t0, TagNames(pet.tags)[..done + 1]);
      }
    }

    /** The category check lets the update through: no name, or a name the table has. */
    predicate CategoryAccepted(name: string)
    {
      name == "" || (SelectCategory !in broken && FindCategoryByName(categories, name).Some?)
    }

    /**
     * UpdatePet's category check (sql_pet.go:192-201): a non-empty category
     * name must name a category; the id found is not kept.
     */
    method CheckCategoryGiven(name: string) returns (err: Option<Error>)
      requires Valid()
      ensures name == "" ==> err.None?
      ensures name != "" && SelectCategory in broken ==> err == Some(StatementFailed)
      ensures name != "" && SelectCategory !in broken ==>
        err == if FindCategoryByName(categories, name).Some? then None else Some(BadCategory)
    {
      if name != "" {
        var idCategory, e := CheckFields(name);
        if e.Some? {
          return e;
        }
        if idCategory == 0 {
          return Some(BadCategory);
        }
      }
      err := None;
    }

    /**
     * UpdatePet's tag replacement (sql_pet.go:216-252): delete every link
     * of the pet, then create or find and link each tag again.
     */
    method ReplaceTags(petId: int, petTags: seq<Tag>) returns (err: Option<Error>, ghost done: nat)
      requires Valid()
      modifies this`tags, this`links
      ensures Valid()
      ensures old(tags.rows) <= tags.rows
      ensures err.Some? && DeletePetTags !in broken ==>
        StoppedAt(old(tags), WithoutPet(old(links), petId), petId, TagNames(petTags), done, tags, links)
      ensures DeletePetTags in broken ==>
        err == Some(Wrap("updatepet queryDel: ", StatementFailed)) && tags == old(tags) && links == old(links)
      ensures err.None? ==> tags == FindOrCreateAll(old(tags), TagNames(petTags))
      ensures err.None? ==> links == WithoutPet(old(links), petId) + LinksFor(petId, tags.rows, TagNames(petTags))
      ensures (DeletePetTags !in broken && InsertTag !in broken && SelectTag !in broken && InsertPetTag !in broken
               && HasPet(pets, petId)) ==> err.None?
      ensures |petTags| > 0 && !HasPet(pets, petId) ==> err.Some?
      ensures DeletePetTags !in broken && |petTags| > 0 && (InsertTag in broken || InsertPetTag in broken) ==> err.Some?
      ensures err.Some? && DeletePetTags !in broken ==> FailsAt(petId, old(tags), TagNames(petTags), done)
    {
      var deleted := DeleteLinksOf(petId);
      if deleted.Some? {
        return Some(Wrap("updatepet queryDel: ", deleted.value)), 0;
      }
      err, done := LinkTags(petId, petTags, UpdatePetMessages);
    }

    /**
     * UpdatePet (sql_pet.go:190-254): a non-empty category name must exist
     * (its id is then dropped, so the category column never changes); the
     * row's columns are coalesced; a non-empty tag list replaces the pet's
     * links by deleting them all and linking each tag again.
     */
    method UpdatePet(pet: Pet) returns (err: Option<Error>, ghost done: nat)
      requires Valid()
      modifies this`pets, this`tags, this`links
      ensures Valid()
      ensures old(tags.rows) <= tags.rows
      ensures CategoryAccepted(pet.category.name) && UpdateColumns in broken ==>
        err.Some? && pets == old(pets) && tags == old(tags) && links == old(links)
      ensures CategoryAccepted(pet.category.name) && UpdateColumns !in broken && |pet.tags| > 0 && err.Some? ==>
        && pets == CoalesceWhere(old(pets), pet.id, pet.name, 0, pet.status, EncodePhotoUrls(pet.photoUrls))
        && (DeletePetTags in broken ==> tags == old(tags) && links == old(links))
        && (DeletePetTags !in broken ==>
              && StoppedAt(old(tags), WithoutPet(old(links), pet.id), pet.id, TagNames(pet.tags), done, tags, links)
              && FailsAt(pet.id, old(tags), TagNames(pet.tags), done))
      ensures (CategoryAccepted(pet.category.name) && UpdateColumns !in broken && DeletePetTags !in broken
               && |pet.tags| > 0 && (InsertTag in broken || InsertPetTag in broken)) ==> err.Some?
      ensures pet.category.name != "" && (SelectCategory in broken || FindCategoryByName(categories, pet.category.name).None?)
        ==> err.Some? && pets == old(pets) && tags == old(tags) && links == old(links)
      ensures err.None? ==> pets == CoalesceWhere(old(pets), pet.id, pet.name, 0, pet.status, EncodePhotoUrls(pet.photoUrls))
      ensures err.None? && |pet.tags| == 0 ==> tags == old(tags) && links == old(links)
      ensures err.None? && |pet.tags| > 0 ==>
        && tags == FindOrCreateAll(old(tags), TagNames(pet.tags))
        && links == WithoutPet(old(links), pet.id) + LinksFor(pet.id, tags.rows, TagNames(pet.tags))
      ensures ((pet.category.name == "" || (SelectCategory !in broken && FindCategoryByName(categories, pet.category.name).Some?))
               && UpdateColumns !in broken && DeletePetTags !in broken && InsertTag !in broken && SelectTag !in broken
               && InsertPetTag !in broken && (|pet.tags| == 0 || HasPet(old(pets), pet.id))) ==> err.None?
      ensures |pet.tags| > 0 && !HasPet(old(pets), pet.id) ==> err.Some?
      ensures pets == old(pets) || pets == CoalesceWhere(old(pets), pet.id, pet.name, 0, pet.status, EncodePhotoUrls(pet.photoUrls))
    {
      done := 0;
      err := CheckCategoryGiven(pet.category.name);
      if err.None? {
        var urls := EncodePhotoUrls(pet.photoUrls);
        err, done := UpdateColumnsAndTags(pet, urls);
      }
    }

    /**
     * UpdatePet after its category check (sql_pet.go:202-252): the coalescing
     * UPDATE of the row, then, for a non-empty tag list, the tag replacement.
     * The source declares a second idCategory inside its check, so the
     * category id the UPDATE receives is always 0.
     */
    method UpdateColumnsAndTags(pet: Pet, urls: string) returns (err: Option<Error>, ghost done: nat)
      requires Valid()
      modifies this`pets, this`tags, this`links
      ensures Valid()
      ensures old(tags.rows) <= tags.rows
      ensures UpdateColumns in broken ==> err.Some? && pets == old(pets) && tags == old(tags) && links == old(links)
      ensures UpdateColumns !in broken ==> pets == CoalesceWhere(old(pets), pet.id, pet.name, 0, pet.status, urls)
      ensures UpdateColumns !in broken && |pet.tags| == 0 ==> err.None? && tags == old(tags) && links == old(links)
      ensures UpdateColumns !in broken && |pet.tags| > 0 && DeletePetTags in broken ==>
        err.Some? && tags == old(tags) && links == old(links)
      ensures err.None? && |pet.tags| > 0 ==>
        && tags == FindOrCreateAll(old(tags), TagNames(pet.tags))
        && links == WithoutPet(old(links), pet.id) + LinksFor(pet.id, tags.rows, TagNames(pet.tags))
      ensures err.Some? && UpdateColumns !in broken && |pet.tags| > 0 && DeletePetTags !in broken ==>
        && StoppedAt(old(tags), WithoutPet(old(links), pet.id), pet.id, TagNames(pet.tags), done, tags, links)
        && FailsAt(pet.id, old(tags), TagNames(pet.tags), done)
      ensures (UpdateColumns !in broken && DeletePetTags !in broken && |pet.tags| > 0
               && (InsertTag in broken || InsertPetTag in broken)) ==> err.Some?
      ensures (UpdateColumns !in broken && DeletePetTags !in broken && InsertTag !in broken && SelectTag !in broken
               && InsertPetTag !in broken && (|pet.tags| == 0 || HasPet(old(pets), pet.id))) ==> err.None?
      ensures |pet.tags| > 0 && !HasPet(old(pets), pet.id) ==> err.Some?
    {
      var idCategory := 0;
      done := 0;
      ghost var before := pets;
      var updated := UpdatePetColumns(pet.name, idCategory, pet.status, urls, pet.id);
      if updated.Some? {
        err := Some(Wrap("error in sqlAdapter-(UpdatePet)-execintable: ", updated.value));
      } else {
        SameIdsSameHasPet(before, pets);
        err := None;
        if |pet.tags| != 0 {
          err, done := ReplaceTags(pet.id, pet.tags);
        }
      }
    }
  }

  /**
   * One turn of the tag loop, resolved or failed, in terms of the names
   * before it: a resolved name extends both tables by that name, a failure
   * leaves the links as they were.
   */
  lemma LinkTagAdvances(petId: int, t0: TagTable, l0: seq<Link>, names: seq<string>, i: nat,
                        tags: TagTable, links: seq<Link>, tags': TagTable, links': seq<Link>, ok: bool)
    requires i < |names|
    requires tags == FindOrCreateAll(t0, names[..i]) && links == l0 + LinksFor(petId, tags.rows, names[..i])
    requires ok ==> tags' == FindOrCreate(tags, names[i]) && links' == links + [Link(petId, TagIdOf(tags'.rows, names[i]))]
    requires !ok ==> links' == links && (tags' == tags || tags' == FindOrCreate(tags, names[i]))
    ensures ok ==> tags' == FindOrCreateAll(t0, names[..i + 1])
    ensures ok ==> links' == l0 + LinksFor(petId, tags'.rows, names[..i + 1])
    ensures !ok ==> links' == l0 + LinksFor(petId, FindOrCreateAll(t0, names[..i]).rows, names[..i])
    ensures !ok ==> tags' == FindOrCreateAll(t0, names[..i]) || tags' == FindOrCreateAll(t0, names[..i + 1])
  {
    LinksForStep(petId, t0, names, i);
  }

  /** Rewriting rows without touching ids keeps the set of ids present. */
  lemma SameIdsSameHasPet(a: seq<PetRecord>, b: seq<PetRecord>)
    requires |a| == |b| && forall k :: 0 <= k < |a| ==> a[k].id == b[k].id
    ensures forall id :: HasPet(a, id) <==> HasPet(b, id)
  {
    forall id | HasPet(a, id)
      ensures HasPet(b, id)
    {
      var k :| 0 <= k < |a| && a[k].id == id;
      assert b[k].id == id;
    }
    forall id | HasPet(b, id)
      ensures HasPet(a, id)
    {
      var k :| 0 <= k < |b| && b[k].id == id;
      assert a[k].id == id;
    }
  }
}
