/**
 * The pet service (internal/modules/pet/service/pet.go): it parses the
 * request, maps it to the storage model, calls the storage and classifies
 * the outcome into a status flag and a numeric error code. The storage is a
 * parameter; a result that does not depend on it is one for which the
 * storage is never called.
 */
module PetService {
  import opened Wrappers
  import opened Errors
  import opened Models
  import opened Strconv
  import opened PetRows
  import opened PetTables
  import SqlPet

  datatype RequestOut = RequestOut(status: bool, errorCode: int)
  datatype RequestOutWithPet = RequestOutWithPet(pet: Pet, status: bool, errorCode: int)
  datatype RequestOutWithPets = RequestOutWithPets(pets: seq<Pet>, status: bool, errorCode: int)

  datatype CategoryRequest = CategoryRequest(name: string)
  datatype TagRequest = TagRequest(name: string)
  datatype PetAddRequest = PetAddRequest(
    category: CategoryRequest, name: string, photoUrls: seq<string>, tags: seq<TagRequest>, status: string)
  datatype PetUpdateRequest = PetUpdateRequest(
    id: int, category: CategoryRequest, name: string, photoUrls: seq<string>, tags: seq<TagRequest>, status: string)

  /** The outcome of a call that succeeded. */
  const Succeeded: RequestOut := RequestOut(true, NoError)

  /**
   * UpdatePetForm (pet.go:22-51). The bad-request guard looks at status and
   * the id text only; the id must parse; a storage error is
   * UpdatePetFormError.
   */
  function UpdatePetForm(name: string, status: string, reqID: string,
                         storage: (string, string, int) -> Option<Error>): (out: RequestOut)
    ensures out.status <==> out.errorCode == NoError
    ensures out.errorCode == PetServiceUpdatePetFormBadReuest <==> status == "" && reqID == ""
    ensures out.errorCode == UpdatePetFormErrorDuringConversion <==> !(status == "" && reqID == "") && Atoi(reqID).None?
    ensures out.status <==> !(status == "" && reqID == "") && Atoi(reqID).Some? && storage(name, status, Atoi(reqID).value).None?
    ensures out.errorCode == UpdatePetFormError <==>
      !(status == "" && reqID == "") && Atoi(reqID).Some? && storage(name, status, Atoi(reqID).value).Some?
  {
    if status == "" && reqID == "" then RequestOut(false, PetServiceUpdatePetFormBadReuest)
    else match Atoi(reqID)
      case None => RequestOut(false, UpdatePetFormErrorDuringConversion)
      case Some(petID) =>
        if storage(name, status, petID).Some? then RequestOut(false, UpdatePetFormError) else Succeeded
  }

  /** A rejected or unparsable form update never reaches the storage. */
  lemma UpdatePetFormSkipsStorage(name: string, status: string, reqID: string,
                                  s1: (string, string, int) -> Option<Error>, s2: (string, string, int) -> Option<Error>)
    requires (status == "" && reqID == "") || Atoi(reqID).None?
    ensures UpdatePetForm(name, status, reqID, s1) == UpdatePetForm(name, status, reqID, s2)
  {
  }

  /**
   * The guard does not test the name: with only the id given (no name and
   * no status), the request still goes to the storage, whose answer decides
   * the outcome.
   */
  lemma {:induction false} UpdatePetFormGuardIgnoresName(s: (string, string, int) -> Option<Error>)
    ensures UpdatePetForm("", "", "5", s) == if s("", "", 5).Some? then RequestOut(false, UpdatePetFormError) else Succeeded
  {
    assert Atoi("5") == Some(5) by {
      AtoiFormatInt(5);
      assert FormatInt(5) == "5";
    }
  }

  /**
   * FindPetbyID (pet.go:53-80): ErrPetNotFound, compared by identity, is
   * PetServiceErrPetNotFound; any other storage error is
   * PetServiceFindPetbyID; a found pet is returned unchanged.
   */
  function FindPetbyID(strID: string, storage: int -> Result<Pet, Error>): (out: RequestOutWithPet)
    ensures out.status <==> out.errorCode == NoError
    ensures out.errorCode == FindPetbyIDErrorDuringConversion <==> Atoi(strID).None?
    ensures out.errorCode == PetServiceErrPetNotFound <==>
      Atoi(strID).Some? && storage(Atoi(strID).value) == Err(PetNotFound)
    ensures out.errorCode == PetServiceFindPetbyID <==>
      Atoi(strID).Some? && storage(Atoi(strID).value).Err? && storage(Atoi(strID).value) != Err(PetNotFound)
    ensures out.status <==> Atoi(strID).Some? && storage(Atoi(strID).value).Ok?
    ensures out.status ==> out.pet == storage(Atoi(strID).value).value
    ensures !out.status ==> out.pet == ZeroPet
  {
    match Atoi(strID)
    case None => RequestOutWithPet(ZeroPet, false, FindPetbyIDErrorDuringConversion)
    case Some(petID) =>
      match storage(petID)
      case Err(e) =>
        RequestOutWithPet(ZeroPet, false, if e == PetNotFound then PetServiceErrPetNotFound else PetServiceFindPetbyID)
      case Ok(pet) => RequestOutWithPet(pet, true, NoError)
  }

  /** An id that does not parse never reaches the storage. */
  lemma FindPetbyIDSkipsStorage(strID: string, s1: int -> Result<Pet, Error>, s2: int -> Result<Pet, Error>)
    requires Atoi(strID).None?
    ensures FindPetbyID(strID, s1) == FindPetbyID(strID, s2)
  {
  }

  /**
   * Over the adapter's two outcomes (SqlPet.PetStore.FindPetbyID): an id
   * with no pet row is reported as not found, while a failed query, which
   * the adapter wraps, is reported as an internal lookup error.
   */
  lemma FindPetbyIDOnTables(strID: string, pets: seq<PetRecord>, cats: seq<Category>, tags: seq<Tag>, links: seq<Link>)
    requires Atoi(strID).Some? && !HasPet(pets, Atoi(strID).value)
    ensures FindPetbyID(strID, id => ByIdResult(JoinRows(pets, cats, tags, links, IdIs(id)))).errorCode
      == PetServiceErrPetNotFound
    ensures FindPetbyID(strID, id => Err(SqlPet.Wrap("failed to execute query: ", SqlPet.StatementFailed))).errorCode
      == PetServiceFindPetbyID
  {
    JoinRowsById(pets, cats, tags, links, Atoi(strID).value);
  }

  /** FindPetbyStatus (pet.go:82-96): the storage's pets as they are, or PetServiceFindPetbyStatus. */
  function FindPetbyStatus(statuses: seq<string>, storage: seq<string> -> Result<seq<Pet>, Error>)
    : (out: RequestOutWithPets)
    ensures out.status <==> storage(statuses).Ok?
    ensures out.status ==> out.pets == storage(statuses).value && out.errorCode == NoError
    ensures !out.status ==> out.pets == [] && out.errorCode == PetServiceFindPetbyStatus
  {
    match storage(statuses)
    case Err(_) => RequestOutWithPets([], false, PetServiceFindPetbyStatus)
    case Ok(pets) => RequestOutWithPets(pets, true, NoError)
  }

  /** The storage model of a tag request: the name, with id 0. */
  function TagModel(t: TagRequest): Tag
  {
    Tag(0, t.name)
  }

  /**
   * The tag list the service hands to the storage (pet.go:104-109,
   * 138-143): one tag per requested tag, in order, each with id 0.
   */
  method MapTags(requested: seq<TagRequest>) returns (tags: seq<Tag>)
    ensures |tags| == |requested|
    ensures forall i :: 0 <= i < |requested| ==> tags[i] == Tag(0, requested[i].name)
    ensures TagNames(tags) == seq(|requested|, i requires 0 <= i < |requested| => requested[i].name)
  {
    tags := [];
    var i := 0;
    while i < |requested|
      invariant 0 <= i <= |requested|
      invariant |tags| == i
      invariant forall k :: 0 <= k < i ==> tags[k] == TagModel(requested[k])
    {
      tags := tags + [TagModel(requested[i])];
      i := i + 1;
    }
  }

  /**
   * AddPet (pet.go:98-130): maps the request and stores it; a storage error
   * is AddPetErr. `sent` is the pet the storage received.
   */
  method AddPet(req: PetAddRequest, storage: Pet -> Option<Error>) returns (out: RequestOut, sent: Pet)
    ensures sent.id == 0 && sent.category == Category(0, req.category.name)
    ensures sent.name == req.name && sent.status == req.status && sent.photoUrls == req.photoUrls
    ensures |sent.tags| == |req.tags| && forall i :: 0 <= i < |req.tags| ==> sent.tags[i] == Tag(0, req.tags[i].name)
    ensures out == if storage(sent).Some? then RequestOut(false, AddPetErr) else Succeeded
  {
    var photourls := req.photoUrls;
    var tags := MapTags(req.tags);
    sent := Pet(0, Category(0, req.category.name), req.name, photourls, tags, req.status);
    var err := storage(sent);
    if err.Some? {
      return RequestOut(false, AddPetErr), sent;
    }
    out := Succeeded;
  }

  /**
   * UpdatePet (pet.go:132-166): maps the request, id included, and stores
   * it; a storage error is PetServiceUpdateErr.
   */
  method UpdatePet(req: PetUpdateRequest, storage: Pet -> Option<Error>) returns (out: RequestOut, sent: Pet)
    ensures sent.id == req.id && sent.category == Category(0, req.category.name)
    ensures sent.name == req.name && sent.status == req.status && sent.photoUrls == req.photoUrls
    ensures |sent.tags| == |req.tags| && forall i :: 0 <= i < |req.tags| ==> sent.tags[i] == Tag(0, req.tags[i].name)
    ensures out == if storage(sent).Some? then RequestOut(false, PetServiceUpdateErr) else Succeeded
  {
    var photourls := req.photoUrls;
    var tags := MapTags(req.tags);
    sent := Pet(req.id, Category(0, req.category.name), req.name, photourls, tags, req.status);
    var err := storage(sent);
    if err.Some? {
      return RequestOut(false, PetServiceUpdateErr), sent;
    }
    out := Succeeded;
  }
}
