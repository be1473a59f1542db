/**
 * The tables the pet adapter writes and reads (pet, category, tags,
 * pet_tags), as values, with the effect of each SQL statement of
 * internal/db/adapter/sql_pet.go on them and the join its queries run.
 */
module PetTables {
  import opened Wrappers
  import opened Models
  import opened PetRows

  /** A row of table pet; photourls is the stored (joined) text. */
  datatype PetRecord = PetRecord(id: int, category: int, name: string, photoUrls: string, status: string)

  /** A row of table pet_tags. */
  datatype Link = Link(petId: int, tagId: int)

  // ---------------------------------------------------------------------
  // tags: find-or-create by unique name.

  predicate HasTagNamed(rows: seq<Tag>, name: string)
  {
    exists k :: 0 <= k < |rows| && rows[k].name == name
  }

  /** `SELECT id FROM tags WHERE name = $1`: the row with that name, if any. */
  function FindTag(rows: seq<Tag>, name: string): (r: Option<Tag>)
    ensures r.Some? <==> HasTagNamed(rows, name)
    ensures r.Some? ==> r.value in rows && r.value.name == name
  {
    if |rows| == 0 then None
    else if rows[0].name == name then Some(rows[0])
    else
      var r := FindTag(rows[1..], name);
      assert HasTagNamed(rows, name) ==> HasTagNamed(rows[1..], name) by {
        if HasTagNamed(rows, name) {
          var k :| 0 <= k < |rows| && rows[k].name == name;
          assert rows[1..][k - 1] == rows[k];
        }
      }
      r
  }

  /** The tag id a name resolves to; 0 (Go's zero value) when absent. */
  function TagIdOf(rows: seq<Tag>, name: string): int
  {
    match FindTag(rows, name)
    case Some(t) => t.id
    case None => 0
  }

  /** The tags table with its serial counter. */
  datatype TagTable = TagTable(rows: seq<Tag>, next: int)

  /** The table's invariant: unique names, ascending positive ids below the counter. */
  predicate ValidTags(t: TagTable)
  {
    && (forall i, j :: 0 <= i < j < |t.rows| ==> t.rows[i].name != t.rows[j].name)
    && (forall i, j :: 0 <= i < j < |t.rows| ==> t.rows[i].id < t.rows[j].id)
    && (forall i :: 0 <= i < |t.rows| ==> 1 <= t.rows[i].id < t.next)
    && t.next >= 1
  }

  /**
   * `INSERT INTO tags (name) VALUES ($1) ON CONFLICT (name) DO NOTHING`,
   * falling back on the lookup: the table after resolving one name.
   */
  function FindOrCreate(t: TagTable, name: string): (u: TagTable)
    ensures t.rows <= u.rows && |u.rows| <= |t.rows| + 1 && t.next <= u.next
    ensures FindTag(u.rows, name).Some?
    ensures FindTag(t.rows, name).Some? ==> u == t
    ensures FindTag(t.rows, name).None? ==> TagIdOf(u.rows, name) == t.next && |u.rows| == |t.rows| + 1
  {
    if FindTag(t.rows, name).Some? then t
    else
      FindTagAppendNew(t.rows, Tag(t.next, name));
      TagTable(t.rows + [Tag(t.next, name)], t.next + 1)
  }

  /** The table after resolving every name in order. */
  function FindOrCreateAll(t: TagTable, names: seq<string>): (u: TagTable)
    ensures t.rows <= u.rows && |u.rows| <= |t.rows| + |names| && t.next <= u.next
    decreases |names|
  {
    if |names| == 0 then t
    else FindOrCreate(FindOrCreateAll(t, names[..|names| - 1]), names[|names| - 1])
  }

  lemma {:induction false} FindTagPrefix(a: seq<Tag>, b: seq<Tag>, name: string)
    requires FindTag(a, name).Some?
    ensures FindTag(a + b, name) == FindTag(a, name)
  {
    if a[0].name != name {
      assert (a + b)[1..] == a[1..] + b;
      FindTagPrefix(a[1..], b, name);
    }
  }

  lemma {:induction false} FindTagAppendNew(rows: seq<Tag>, t: Tag)
    requires FindTag(rows, t.name).None?
    ensures FindTag(rows + [t], t.name) == Some(t)
  {
    if |rows| > 0 {
      assert (rows + [t])[1..] == rows[1..] + [t];
      FindTagAppendNew(rows[1..], t);
    } else {
      assert rows + [t] == [t];
    }
  }

  /** A name that resolved keeps its tag whatever the table gains later. */
  lemma TagIdOfPrefix(a: seq<Tag>, b: seq<Tag>, name: string)
    requires FindTag(a, name).Some?
    ensures TagIdOf(a + b, name) == TagIdOf(a, name)
  {
    FindTagPrefix(a, b, name);
  }

  lemma FindOrCreateFacts(t: TagTable, name: string)
    requires ValidTags(t)
    ensures ValidTags(FindOrCreate(t, name))
    ensures t.rows <= FindOrCreate(t, name).rows
    ensures FindTag(FindOrCreate(t, name).rows, name).Some?
    ensures FindTag(t.rows, name).Some? ==> FindOrCreate(t, name) == t
  {
    if FindTag(t.rows, name).None? {
      var u := FindOrCreate(t, name);
      FindTagAppendNew(t.rows, Tag(t.next, name));
      forall i, j | 0 <= i < j < |u.rows|
        ensures u.rows[i].name != u.rows[j].name
      {
        if j == |t.rows| {
          assert u.rows[i] == t.rows[i];
          assert !HasTagNamed(t.rows, name);
        }
      }
    }
  }

  /** Resolving a name adds that name, and no other, to the names the table has. */
  lemma FindOrCreateHas(t: TagTable, name: string, x: string)
    ensures FindTag(FindOrCreate(t, name).rows, x).Some? <==> FindTag(t.rows, x).Some? || x == name
  {
    var u := FindOrCreate(t, name);
    if FindTag(t.rows, name).None? {
      assert u.rows == t.rows + [Tag(t.next, name)];
      if HasTagNamed(u.rows, x) && x != name {
        var k :| 0 <= k < |u.rows| && u.rows[k].name == x;
        assert t.rows[k] == u.rows[k];
      }
      if HasTagNamed(t.rows, x) {
        var k :| 0 <= k < |t.rows| && t.rows[k].name == x;
        assert u.rows[k] == t.rows[k];
      }
    }
  }

  /** After resolving `names`, a name has a row exactly when it had one before or is among them. */
  lemma {:induction false} FindOrCreateAllHas(t: TagTable, names: seq<string>, x: string)
    ensures FindTag(FindOrCreateAll(t, names).rows, x).Some? <==> FindTag(t.rows, x).Some? || x in names
    decreases |names|
  {
    if |names| > 0 {
      var front := names[..|names| - 1];
      FindOrCreateAllHas(t, front, x);
      FindOrCreateHas(FindOrCreateAll(t, front), names[|names| - 1], x);
      assert names == front + [names[|names| - 1]];
    }
  }

  /** Name `i` already has a row when its turn comes: the table had it, or an earlier name created it. */
  predicate ExistingAtTurn(t: TagTable, names: seq<string>, i: nat)
  {
    i < |names| && (FindTag(t.rows, names[i]).Some? || names[i] in names[..i])
  }

  /** The turn of name `i` finds the name exactly when it already has a row in the sense above. */
  lemma ExistingAtTurnFound(t: TagTable, names: seq<string>, i: nat)
    requires i < |names|
    ensures FindTag(FindOrCreateAll(t, names[..i]).rows, names[i]).Some? <==> ExistingAtTurn(t, names, i)
  {
    FindOrCreateAllHas(t, names[..i], names[i]);
  }

  /**
   * When resolving the first `n` names added one row per name, no name
   * found an existing row at its turn.
   */
  lemma {:induction false} GrewByOnePerName(t: TagTable, names: seq<string>, n: nat)
    requires n <= |names|
    requires |FindOrCreateAll(t, names[..n]).rows| == |t.rows| + n
    ensures forall j :: 0 <= j < n ==> FindTag(FindOrCreateAll(t, names[..j]).rows, names[j]).None?
  {
    if n > 0 {
      assert names[..n][..n - 1] == names[..n - 1];
      var mid := FindOrCreateAll(t, names[..n - 1]);
      assert FindOrCreateAll(t, names[..n]) == FindOrCreate(mid, names[n - 1]);
      assert |mid.rows| <= |t.rows| + (n - 1);
      if FindTag(mid.rows, names[n - 1]).Some? {
        assert false;
      }
      GrewByOnePerName(t, names, n - 1);
      forall j | 0 <= j < n
        ensures FindTag(FindOrCreateAll(t, names[..j]).rows, names[j]).None?
      {
        if j == n - 1 {
          assert FindOrCreateAll(t, names[..j]) == mid;
        }
      }
    }
  }

  /**
   * Resolving names keeps the table valid (in particular, no two rows share
   * a name) and never changes or removes an existing row.
   */
  lemma {:induction false} FindOrCreateAllValid(t: TagTable, names: seq<string>)
    requires ValidTags(t)
    ensures ValidTags(FindOrCreateAll(t, names))
    ensures t.rows <= FindOrCreateAll(t, names).rows
    decreases |names|
  {
    if |names| > 0 {
      var mid := FindOrCreateAll(t, names[..|names| - 1]);
      FindOrCreateAllValid(t, names[..|names| - 1]);
      FindOrCreateFacts(mid, names[|names| - 1]);
    }
  }

  /** After resolving names, every one of them resolves. */
  lemma {:induction false} FindOrCreateAllCovers(t: TagTable, names: seq<string>)
    ensures forall k :: 0 <= k < |names| ==> FindTag(FindOrCreateAll(t, names).rows, names[k]).Some?
    decreases |names|
  {
    if |names| > 0 {
      var front := names[..|names| - 1];
      FindOrCreateAllCovers(t, front);
      CoversStep(FindOrCreateAll(t, front), front, names[|names| - 1]);
      assert front + [names[|names| - 1]] == names;
    }
  }

  lemma CoversStep(mid: TagTable, front: seq<string>, last: string)
    requires forall k :: 0 <= k < |front| ==> FindTag(mid.rows, front[k]).Some?
    ensures forall k :: 0 <= k < |front| + 1 ==>
      FindTag(FindOrCreate(mid, last).rows, (front + [last])[k]).Some?
  {
    var u := FindOrCreate(mid, last);
    var extra := u.rows[|mid.rows|..];
    assert mid.rows + extra == u.rows;
    if FindTag(mid.rows, last).None? {
      FindTagAppendNew(mid.rows, Tag(mid.next, last));
    }
    forall k | 0 <= k < |front|
      ensures FindTag(u.rows, front[k]).Some?
    {
      FindTagPrefix(mid.rows, extra, front[k]);
    }
  }

  /** Names that all resolve already create nothing. */
  lemma {:induction false} FindOrCreateAllPresent(t: TagTable, names: seq<string>)
    requires forall k :: 0 <= k < |names| ==> FindTag(t.rows, names[k]).Some?
    ensures FindOrCreateAll(t, names) == t
    decreases |names|
  {
    if |names| > 0 {
      var front := names[..|names| - 1];
      assert forall k :: 0 <= k < |front| ==> front[k] == names[k];
      FindOrCreateAllPresent(t, front);
    }
  }

  /**
   * Find-or-create is idempotent: writing the same tag names a second time
   * (a second pet tagged "friendly") adds no tag row.
   */
  lemma FindOrCreateAllIdempotent(t: TagTable, names: seq<string>)
    ensures FindOrCreateAll(FindOrCreateAll(t, names), names) == FindOrCreateAll(t, names)
  {
    FindOrCreateAllCovers(t, names);
    FindOrCreateAllPresent(FindOrCreateAll(t, names), names);
  }

  /** The pet_tags rows one write appends: one per name, in order, to the name's tag. */
  function LinksFor(petId: int, rows: seq<Tag>, names: seq<string>): seq<Link>
  {
    seq(|names|, k requires 0 <= k < |names| => Link(petId, TagIdOf(rows, names[k])))
  }

  /**
   * Resolving one more name appends one link for it, and the links already
   * written for earlier names still point where they did.
   */
  lemma LinksForStep(petId: int, t: TagTable, names: seq<string>, i: nat)
    requires i < |names|
    ensures FindOrCreateAll(t, names[..i + 1]) == FindOrCreate(FindOrCreateAll(t, names[..i]), names[i])
    ensures LinksFor(petId, FindOrCreateAll(t, names[..i + 1]).rows, names[..i + 1])
      == LinksFor(petId, FindOrCreateAll(t, names[..i]).rows, names[..i])
         + [Link(petId, TagIdOf(FindOrCreateAll(t, names[..i + 1]).rows, names[i]))]
  {
    var front := names[..i];
    assert names[..i + 1][..i] == front;
    var mid := FindOrCreateAll(t, front).rows;
    var u := FindOrCreateAll(t, names[..i + 1]).rows;
    assert mid <= u;
    FindOrCreateAllCovers(t, front);
    var extra := u[|mid|..];
    assert mid + extra == u;
    var lhs := LinksFor(petId, u, names[..i + 1]);
    var rhs := LinksFor(petId, mid, front) + [Link(petId, TagIdOf(u, names[i]))];
    forall k | 0 <= k < i
      ensures lhs[k] == rhs[k]
    {
      TagIdOfPrefix(mid, extra, front[k]);
    }
    assert lhs == rhs;
  }

  /** The names a pet's tag list asks for. */
  function TagNames(tags: seq<Tag>): seq<string>
  {
    seq(|tags|, k requires 0 <= k < |tags| => tags[k].name)
  }

  /** `DELETE FROM pet_tags WHERE pet_id = $1`. */
  function WithoutPet(links: seq<Link>, petId: int): (r: seq<Link>)
    ensures forall k :: 0 <= k < |r| ==> r[k].petId != petId && r[k] in links
    ensures forall l :: l in links && l.petId != petId ==> l in r
  {
    if |links| == 0 then []
    else if links[0].petId == petId then WithoutPet(links[1..], petId)
    else [links[0]] + WithoutPet(links[1..], petId)
  }

  // ---------------------------------------------------------------------
  // pet: partial updates.

  predicate HasPet(pets: seq<PetRecord>, id: int)
  {
    exists k :: 0 <= k < |pets| && pets[k].id == id
  }

  predicate PetIdsAscending(pets: seq<PetRecord>)
  {
    forall i, j :: 0 <= i < j < |pets| ==> pets[i].id < pets[j].id
  }

  /** `COALESCE(NULLIF($k, ''), col)`: the new text unless it is empty. */
  function KeepIfEmpty(value: string, stored: string): string
  {
    if value == "" then stored else value
  }

  /** `COALESCE(NULLIF($k, 0), col)`: the new id unless it is 0. */
  function KeepIfZero(value: int, stored: int): int
  {
    if value == 0 then stored else value
  }

  /** UpdatePet's UPDATE on one row; photourls = COALESCE($4, photourls) always takes $4. */
  function Coalesced(r: PetRecord, name: string, category: int, status: string, urls: string): (c: PetRecord)
    ensures c.id == r.id && c.photoUrls == urls
    ensures c.name == r.name <==> name == "" || name == r.name
    ensures c.status == r.status <==> status == "" || status == r.status
    ensures c.category == r.category <==> category == 0 || category == r.category
    ensures name != "" ==> c.name == name
    ensures status != "" ==> c.status == status
    ensures category != 0 ==> c.category == category
  {
    PetRecord(r.id, KeepIfZero(category, r.category), KeepIfEmpty(name, r.name), urls, KeepIfEmpty(status, r.status))
  }

  /** UpdatePet's UPDATE ... WHERE id = $5 on the table. */
  function CoalesceWhere(pets: seq<PetRecord>, id: int, name: string, category: int, status: string, urls: string)
    : (r: seq<PetRecord>)
    ensures |r| == |pets|
    ensures forall k :: 0 <= k < |pets| ==> r[k].id == pets[k].id
    ensures category == 0 ==> forall k :: 0 <= k < |pets| ==> r[k].category == pets[k].category
    ensures forall k :: 0 <= k < |pets| && pets[k].id != id ==> r[k] == pets[k]
    ensures forall k :: 0 <= k < |pets| && pets[k].id == id ==> r[k] == Coalesced(pets[k], name, category, status, urls)
  {
    seq(|pets|, k requires 0 <= k < |pets| =>
      if pets[k].id == id then Coalesced(pets[k], name, category, status, urls) else pets[k])
  }

  /** A column UpdatePetForm may assign. */
  datatype Column = NameColumn | StatusColumn

  datatype Assignment = Assignment(column: Column, value: string)

  function Assign(r: PetRecord, a: Assignment): PetRecord
  {
    match a.column
    case NameColumn => r.(name := a.value)
    case StatusColumn => r.(status := a.value)
  }

  function AssignAll(r: PetRecord, assigns: seq<Assignment>): PetRecord
    decreases |assigns|
  {
    if |assigns| == 0 then r else AssignAll(Assign(r, assigns[0]), assigns[1..])
  }

  /** An UPDATE SET of name and status never touches id, category or photourls. */
  lemma {:induction false} AssignAllKeeps(r: PetRecord, assigns: seq<Assignment>)
    ensures AssignAll(r, assigns).id == r.id
    ensures AssignAll(r, assigns).category == r.category
    ensures AssignAll(r, assigns).photoUrls == r.photoUrls
    decreases |assigns|
  {
    if |assigns| > 0 {
      AssignAllKeeps(Assign(r, assigns[0]), assigns[1..]);
    }
  }

  /** `UPDATE pet SET <assignments> WHERE id = $n` on the table. */
  function AssignWhere(pets: seq<PetRecord>, id: int, assigns: seq<Assignment>): (r: seq<PetRecord>)
    ensures |r| == |pets|
    ensures forall k :: 0 <= k < |pets| && pets[k].id != id ==> r[k] == pets[k]
  {
    seq(|pets|, k requires 0 <= k < |pets| => if pets[k].id == id then AssignAll(pets[k], assigns) else pets[k])
  }

  // ---------------------------------------------------------------------
  // The query both readers run: pet JOIN category LEFT JOIN pet_tags
  // LEFT JOIN tags, ORDER BY p.id.

  datatype Filter = IdIs(id: int) | StatusIn(statuses: seq<string>)

  predicate Selects(f: Filter, r: PetRecord)
  {
    match f
    case IdIs(id) => r.id == id
    case StatusIn(statuses) => r.status in statuses
  }

  function FindCategoryById(cats: seq<Category>, id: int): Option<Category>
  {
    if |cats| == 0 then None
    else if cats[0].id == id then Some(cats[0])
    else FindCategoryById(cats[1..], id)
  }

  /** `SELECT id FROM category WHERE name = $1 LIMIT 1`: the first row with that name. */
  function FindCategoryByName(cats: seq<Category>, name: string): (r: Option<Category>)
    ensures r.Some? ==> r.value in cats && r.value.name == name
    ensures r.None? ==> forall k :: 0 <= k < |cats| ==> cats[k].name != name
  {
    if |cats| == 0 then None
    else if cats[0].name == name then Some(cats[0])
    else FindCategoryByName(cats[1..], name)
  }

  lemma {:induction false} FindCategoryByIdIn(cats: seq<Category>, c: Category)
    requires c in cats
    ensures FindCategoryById(cats, c.id).Some?
  {
    if cats[0].id != c.id {
      FindCategoryByIdIn(cats[1..], c);
    }
  }

  function FindTagById(rows: seq<Tag>, id: int): Option<Tag>
  {
    if |rows| == 0 then None
    else if rows[0].id == id then Some(rows[0])
    else FindTagById(rows[1..], id)
  }

  lemma {:induction false} FindTagByIdIn(rows: seq<Tag>, t: Tag)
    requires t in rows
    ensures FindTagById(rows, t.id).Some?
  {
    if rows[0].id != t.id {
      FindTagByIdIn(rows[1..], t);
    }
  }

  lemma {:induction false} FindTagByIdPrefix(a: seq<Tag>, b: seq<Tag>, id: int)
    requires FindTagById(a, id).Some?
    ensures FindTagById(a + b, id).Some?
  {
    if a[0].id != id {
      assert (a + b)[1..] == a[1..] + b;
      FindTagByIdPrefix(a[1..], b, id);
    }
  }

  /** Links whose tags resolve in a table still resolve once rows are appended to it. */
  lemma LinksResolveInExtended(links: seq<Link>, a: seq<Tag>, b: seq<Tag>)
    requires forall k :: 0 <= k < |links| ==> FindTagById(a, links[k].tagId).Some?
    ensures forall k :: 0 <= k < |links| ==> FindTagById(a + b, links[k].tagId).Some?
  {
    forall k | 0 <= k < |links|
      ensures FindTagById(a + b, links[k].tagId).Some?
    {
      FindTagByIdPrefix(a, b, links[k].tagId);
    }
  }

  /** With ids ascending, looking a stored tag up by its id finds that very row. */
  lemma {:induction false} FindTagByIdUnique(rows: seq<Tag>, t: Tag)
    requires forall i, j :: 0 <= i < j < |rows| ==> rows[i].id < rows[j].id
    requires t in rows
    ensures FindTagById(rows, t.id) == Some(t)
  {
    if rows[0] != t {
      var j :| 0 <= j < |rows| && rows[j] == t;
      assert rows[1..][j - 1] == t;
      FindTagByIdUnique(rows[1..], t);
    }
  }

  /**
   * The links one write appends go to the pet, one per name in order, and
   * each points at the tag row with that name.
   */
  lemma LinksPointAtNamedTags(petId: int, t: TagTable, names: seq<string>)
    requires ValidTags(t)
    requires forall k :: 0 <= k < |names| ==> FindTag(t.rows, names[k]).Some?
    ensures |LinksFor(petId, t.rows, names)| == |names|
    ensures forall k :: 0 <= k < |names| ==>
      LinksFor(petId, t.rows, names)[k].petId == petId
      && FindTagById(t.rows, LinksFor(petId, t.rows, names)[k].tagId) == FindTag(t.rows, names[k])
  {
    forall k | 0 <= k < |names|
      ensures FindTagById(t.rows, LinksFor(petId, t.rows, names)[k].tagId) == FindTag(t.rows, names[k])
    {
      FindTagByIdUnique(t.rows, FindTag(t.rows, names[k]).value);
    }
  }

  /** The tag ids the pet_tags rows give one pet, in table order. */
  function LinkedTagIds(links: seq<Link>, petId: int): (ids: seq<int>)
    ensures |ids| <= |links|
    ensures forall k :: 0 <= k < |ids| ==> Link(petId, ids[k]) in links
  {
    if |links| == 0 then []
    else (if links[0].petId == petId then [links[0].tagId] else []) + LinkedTagIds(links[1..], petId)
  }

  function JoinedRow(r: PetRecord, c: Category, t: Option<Tag>): Row
  {
    Row(r.id, r.name, r.photoUrls, r.status, c.id, c.name,
        if t.Some? then Some(t.value.id) else None,
        if t.Some? then Some(t.value.name) else None)
  }

  /** The rows of one pet: one per association, or one with NULL tag columns. */
  function PetJoinRows(r: PetRecord, c: Category, tags: seq<Tag>, tagIds: seq<int>): (rows: seq<Row>)
    ensures |rows| > 0
    ensures forall k :: 0 <= k < |rows| ==> rows[k].petId == r.id
  {
    if |tagIds| == 0 then [JoinedRow(r, c, None)]
    else seq(|tagIds|, k requires 0 <= k < |tagIds| => JoinedRow(r, c, FindTagById(tags, tagIds[k])))
  }

  /** One pet's share of the join: none when it is filtered out or its category is missing. */
  function RowsOfPet(p: PetRecord, cats: seq<Category>, tags: seq<Tag>, links: seq<Link>, f: Filter): (rows: seq<Row>)
    ensures forall k :: 0 <= k < |rows| ==> rows[k].petId == p.id
    ensures !Selects(f, p) || FindCategoryById(cats, p.category).None? ==> rows == []
    ensures Selects(f, p) && FindCategoryById(cats, p.category).Some? ==>
      |rows| == if |LinkedTagIds(links, p.id)| == 0 then 1 else |LinkedTagIds(links, p.id)|
  {
    match FindCategoryById(cats, p.category)
    case Some(c) => if Selects(f, p) then PetJoinRows(p, c, tags, LinkedTagIds(links, p.id)) else []
    case None => []
  }

  /** The join's rows, pet by pet in table order. */
  function JoinRows(pets: seq<PetRecord>, cats: seq<Category>, tags: seq<Tag>, links: seq<Link>, f: Filter)
    : (rows: seq<Row>)
    ensures forall k :: 0 <= k < |rows| ==> HasPet(pets, rows[k].petId)
  {
    if |pets| == 0 then []
    else
      HasPetTail(pets);
      RowsOfPet(pets[0], cats, tags, links, f) + JoinRows(pets[1..], cats, tags, links, f)
  }

  lemma HasPetTail(pets: seq<PetRecord>)
    requires |pets| > 0
    ensures HasPet(pets, pets[0].id)
    ensures forall id :: HasPet(pets[1..], id) ==> HasPet(pets, id)
  {
    forall id | HasPet(pets[1..], id)
      ensures HasPet(pets, id)
    {
      var k :| 0 <= k < |pets[1..]| && pets[1..][k].id == id;
      assert pets[k + 1].id == id;
    }
  }

  /** Two sorted row lists, the first not above the second, make a sorted list. */
  lemma SortedAppend(a: seq<Row>, b: seq<Row>, bound: int)
    requires SortedById(a) && SortedById(b)
    requires forall k :: 0 <= k < |a| ==> a[k].petId <= bound
    requires forall k :: 0 <= k < |b| ==> b[k].petId >= bound
    ensures SortedById(a + b)
  {
    var ab := a + b;
    forall i, j | 0 <= i < j < |ab|
      ensures ab[i].petId <= ab[j].petId
    {
      if j < |a| {
        assert ab[i] == a[i] && ab[j] == a[j];
      } else if i < |a| {
        assert ab[i] == a[i] && ab[j] == b[j - |a|];
      } else {
        assert ab[i] == b[i - |a|] && ab[j] == b[j - |a|];
      }
    }
  }

  lemma {:induction false} JoinRowsIdsAtLeast(pets: seq<PetRecord>, cats: seq<Category>, tags: seq<Tag>,
                                              links: seq<Link>, f: Filter, bound: int)
    requires forall k :: 0 <= k < |pets| ==> pets[k].id >= bound
    ensures forall k :: 0 <= k < |JoinRows(pets, cats, tags, links, f)| ==>
      JoinRows(pets, cats, tags, links, f)[k].petId >= bound
    decreases |pets|
  {
    if |pets| > 0 {
      JoinRowsIdsAtLeast(pets[1..], cats, tags, links, f, bound);
    }
  }

  /** A table in ascending id order gives rows ordered by pet id (ORDER BY p.id). */
  lemma {:induction false} JoinRowsSorted(pets: seq<PetRecord>, cats: seq<Category>, tags: seq<Tag>,
                                          links: seq<Link>, f: Filter)
    requires PetIdsAscending(pets)
    ensures SortedById(JoinRows(pets, cats, tags, links, f))
    decreases |pets|
  {
    if |pets| > 0 {
      var own := RowsOfPet(pets[0], cats, tags, links, f);
      var rest := JoinRows(pets[1..], cats, tags, links, f);
      JoinRowsSorted(pets[1..], cats, tags, links, f);
      JoinRowsIdsAtLeast(pets[1..], cats, tags, links, f, pets[0].id);
      SortedAppend(own, rest, pets[0].id);
    }
  }

  /** Every row of the by-id query carries that id; with no such pet there are none. */
  lemma {:induction false} JoinRowsById(pets: seq<PetRecord>, cats: seq<Category>, tags: seq<Tag>,
                                        links: seq<Link>, id: int)
    ensures forall k :: 0 <= k < |JoinRows(pets, cats, tags, links, IdIs(id))| ==>
      JoinRows(pets, cats, tags, links, IdIs(id))[k].petId == id
    ensures !HasPet(pets, id) ==> JoinRows(pets, cats, tags, links, IdIs(id)) == []
    decreases |pets|
  {
    if |pets| > 0 {
      JoinRowsById(pets[1..], cats, tags, links, id);
    }
  }

  /** A filter that matches no pet gives no rows. */
  lemma {:induction false} JoinRowsUnselected(pets: seq<PetRecord>, cats: seq<Category>, tags: seq<Tag>,
                                              links: seq<Link>, f: Filter)
    requires forall k :: 0 <= k < |pets| ==> !Selects(f, pets[k])
    ensures JoinRows(pets, cats, tags, links, f) == []
    decreases |pets|
  {
    if |pets| > 0 {
      JoinRowsUnselected(pets[1..], cats, tags, links, f);
    }
  }

  /** With unique ids, the by-id query returns exactly the rows of that one pet. */
  lemma {:induction false} JoinRowsOfOnePet(pets: seq<PetRecord>, cats: seq<Category>, tags: seq<Tag>,
                                            links: seq<Link>, k: nat)
    requires PetIdsAscending(pets) && k < |pets|
    requires FindCategoryById(cats, pets[k].category).Some?
    ensures JoinRows(pets, cats, tags, links, IdIs(pets[k].id))
      == PetJoinRows(pets[k], FindCategoryById(cats, pets[k].category).value, tags, LinkedTagIds(links, pets[k].id))
    decreases |pets|
  {
    var f := IdIs(pets[k].id);
    if k == 0 {
      JoinRowsUnselected(pets[1..], cats, tags, links, f);
    } else {
      JoinRowsOfOnePet(pets[1..], cats, tags, links, k - 1);
      assert pets[1..][k - 1] == pets[k];
      assert !Selects(f, pets[0]);
    }
  }

  /** The tags of every given id exist. */
  predicate AllTagsExist(rows: seq<Tag>, tagIds: seq<int>)
  {
    forall j :: 0 <= j < |tagIds| ==> FindTagById(rows, tagIds[j]).Some?
  }

  /**
   * FindPetbyID on a stored pet: with at most one tag it returns the zero
   * pet, and with m >= 2 tags it returns the pet with m - 1 of them, since
   * the first joined row is never read.
   */
  lemma FindByIdOfStoredPet(pets: seq<PetRecord>, cats: seq<Category>, tags: seq<Tag>, links: seq<Link>, k: nat)
    requires PetIdsAscending(pets) && k < |pets| && pets[k].id != 0
    requires FindCategoryById(cats, pets[k].category).Some?
    ensures |LinkedTagIds(links, pets[k].id)| <= 1 ==>
      ByIdResult(JoinRows(pets, cats, tags, links, IdIs(pets[k].id))) == Ok(ZeroPet)
    ensures |LinkedTagIds(links, pets[k].id)| >= 2 && AllTagsExist(tags, LinkedTagIds(links, pets[k].id)) ==>
      var r := ByIdResult(JoinRows(pets, cats, tags, links, IdIs(pets[k].id)));
      && r.Ok?
      && r.value.id == pets[k].id && r.value.name == pets[k].name && r.value.status == pets[k].status
      && r.value.category == FindCategoryById(cats, pets[k].category).value
      && |r.value.tags| == |LinkedTagIds(links, pets[k].id)| - 1
  {
    var p := pets[k];
    var c := FindCategoryById(cats, p.category).value;
    var ids := LinkedTagIds(links, p.id);
    var rows := JoinRows(pets, cats, tags, links, IdIs(p.id));
    JoinRowsOfOnePet(pets, cats, tags, links, k);
    assert rows == PetJoinRows(p, c, tags, ids);
    ByIdOnOnePet(rows, p.id);
    if |ids| >= 2 && AllTagsExist(tags, ids) {
      var tail := rows[1..];
      forall j | 0 <= j < |tail|
        ensures Scannable(tail[j])
      {
        assert tail[j] == JoinedRow(p, c, FindTagById(tags, ids[j + 1]));
      }
      assert tail[0] == rows[1];
    }
  }

  /** Every row of the by-status query has one of the requested statuses. */
  lemma {:induction false} JoinRowsStatusIn(pets: seq<PetRecord>, cats: seq<Category>, tags: seq<Tag>,
                                            links: seq<Link>, statuses: seq<string>)
    ensures forall k :: 0 <= k < |JoinRows(pets, cats, tags, links, StatusIn(statuses))| ==>
      JoinRows(pets, cats, tags, links, StatusIn(statuses))[k].status in statuses
    decreases |pets|
  {
    if |pets| > 0 {
      JoinRowsStatusIn(pets[1..], cats, tags, links, statuses);
    }
  }

  /**
   * FindPetbyStatus on the tables: each pet once, in ascending id order,
   * each with one of the requested statuses.
   */
  lemma FindByStatusOnTables(pets: seq<PetRecord>, cats: seq<Category>, tags: seq<Tag>, links: seq<Link>,
                             statuses: seq<string>)
    requires PetIdsAscending(pets)
    ensures var r := ByStatusResult(JoinRows(pets, cats, tags, links, StatusIn(statuses)));
      r.Ok? ==>
        && (forall i, j :: 0 <= i < j < |r.value| ==> r.value[i].id < r.value[j].id)
        && (forall i :: 0 <= i < |r.value| ==> r.value[i].status in statuses)
  {
    var rows := JoinRows(pets, cats, tags, links, StatusIn(statuses));
    if AllScannable(rows) {
      JoinRowsSorted(pets, cats, tags, links, StatusIn(statuses));
      GroupSortedRowsGivesDistinctIds(rows);
      JoinRowsStatusIn(pets, cats, tags, links, statuses);
      GroupPetsComeFromRows(rows);
    }
  }

  /**
   * A selected pet without tags yields a row with NULL tag columns, which
   * the loop cannot scan: the whole query then fails.
   */
  lemma {:induction false} FindByStatusFailsOnUntaggedPet(pets: seq<PetRecord>, cats: seq<Category>, tags: seq<Tag>,
                                                          links: seq<Link>, statuses: seq<string>, k: nat)
    requires k < |pets| && pets[k].status in statuses
    requires FindCategoryById(cats, pets[k].category).Some?
    requires LinkedTagIds(links, pets[k].id) == []
    ensures ByStatusResult(JoinRows(pets, cats, tags, links, StatusIn(statuses))) == Err(ScanError)
    decreases |pets|
  {
    var rows := JoinRows(pets, cats, tags, links, StatusIn(statuses));
    if k == 0 {
      assert !Scannable(rows[0]);
    } else {
      var rest := JoinRows(pets[1..], cats, tags, links, StatusIn(statuses));
      assert pets[1..][k - 1] == pets[k];
      FindByStatusFailsOnUntaggedPet(pets[1..], cats, tags, links, statuses, k - 1);
      var j :| 0 <= j < |rest| && !Scannable(rest[j]);
      assert rows[|rows| - |rest| + j] == rest[j];
    }
  }
}
