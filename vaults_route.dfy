/** The `/api/vaults` endpoint: POST creates a vault under a per-author quota,
    GET lists vaults as redacted summaries. */
module VaultsRoute {
  import opened Wrappers
  import opened VaultModel

  /** The most vaults one author may own. */
  const MaxVaultsPerAuthor: nat := 2

  /** An HTTP reply: the status code and the string fields of its JSON body. */
  datatype Reply = Reply(code: int, fields: map<string, string>)

  /** How a POST ends. */
  datatype PostOutcome = MissingAuthor | LimitReached | CreateFailed | Created

  /** The reply sent for each outcome. The created vault, sent as `data`, is not
      among the string fields. */
  function ReplyOf(o: PostOutcome): (r: Reply)
    ensures r.code == 201 <==> o == Created
    ensures r.code == 400 <==> o == MissingAuthor || o == LimitReached
    ensures r.code == 500 <==> o == CreateFailed
    ensures "message" in r.fields && "status" in r.fields
    ensures r.fields["status"] == (if o == Created then "success" else "error")
    ensures o == MissingAuthor ==> r.fields["message"] == "Author ID is required"
    ensures o == LimitReached ==> r.fields["message"] == "Vault limit reached. Only 2 vaults allowed per user."
    ensures o == CreateFailed ==> r.fields["message"] == "Failed to create vault"
    ensures o == Created ==> r.fields["message"] == "Vault created successfully"
  {
    match o
    case MissingAuthor => Reply(400, map["status" := "error", "message" := "Author ID is required"])
    case LimitReached =>
      Reply(400, map["status" := "error", "message" := "Vault limit reached. Only 2 vaults allowed per user."])
    case CreateFailed => Reply(500, map["status" := "error", "message" := "Failed to create vault"])
    case Created => Reply(201, map["status" := "success", "message" := "Vault created successfully"])
  }

  /** The JSON body of a POST. `tags` stands for every field the handler does not read. */
  datatype PostBody = PostBody(
    title: Option<string>,
    description: Option<string>,
    theme: Option<string>,
    password: Option<string>,
    category: Option<string>,
    author: Option<UserId>,
    tags: Option<seq<string>>)

  /** `!x` for a string-valued field: undefined or empty. */
  predicate Falsy(s: Option<string>)
  {
    s.None? || s.value == ""
  }

  /** The six fields the handler destructures and passes to `Vault.create`. */
  function AttrsOf(b: PostBody): CreateAttrs
  {
    CreateAttrs(b.title, b.description, b.theme, b.password, b.category, b.author)
  }

  /** No author owns more vaults than the quota allows. */
  ghost predicate QuotaHolds(docs: seq<Vault>)
  {
    forall a :: CountDocuments(docs, a) <= MaxVaultsPerAuthor
  }

  /** Inserting a vault whose author is under the quota keeps every author within it. */
  lemma QuotaPreservedByInsert(docs: seq<Vault>, v: Vault)
    requires QuotaHolds(docs)
    requires CountDocuments(docs, v.author) < MaxVaultsPerAuthor
    ensures QuotaHolds(docs + [v])
  {
    forall a
      ensures CountDocuments(docs + [v], a) <= MaxVaultsPerAuthor
    {
      CountAppend(docs, v, a);
    }
  }

  /** The vault POST stores for `body` once it has passed validation: the new
      document with its password hashed by the pre-save hook. */
  function CreatedVault(docs: seq<Vault>, body: PostBody, hash: string -> string): (v: Vault)
    requires body.password.Some?
    ensures v.password == Some(hash(body.password.value))
    ensures v.author == OrElse(body.author, "")
    ensures forall i :: 0 <= i < |docs| ==> docs[i].id != v.id
    ensures v.tags == [] && v.isLocked && v.failedAttempts == 0
  {
    Hashed(NewVault(NextId(docs), AttrsOf(body)), hash)
  }

  /** The vault collection, as far as this endpoint reads and writes it. */
  class VaultStore {
    var docs: seq<Vault>

    ghost predicate Valid()
      reads this
    {
      PasswordsStored(docs)
    }

    constructor ()
      ensures Valid() && docs == []
    {
      docs := [];
    }

    /** `POST /api/vaults`: author check, then quota check, then `Vault.create`
        (validation, pre-save hash, insert). Every failure leaves the store as it was. */
    method Post(body: PostBody, hash: string -> string) returns (outcome: PostOutcome)
      requires Valid()
      modifies this
      ensures Valid()
      ensures outcome != Created ==> docs == old(docs)
      ensures outcome == MissingAuthor <==> Falsy(body.author)
      ensures outcome == LimitReached <==>
        !Falsy(body.author) && CountDocuments(old(docs), body.author.value) >= MaxVaultsPerAuthor
      ensures !Falsy(body.author) && CountDocuments(old(docs), body.author.value) < MaxVaultsPerAuthor
        ==> (outcome == Created <==> SchemaValid(NewVault(NextId(old(docs)), AttrsOf(body))))
      ensures outcome == CreateFailed ==> !SchemaValid(NewVault(NextId(old(docs)), AttrsOf(body)))
      ensures outcome == Created ==> body.password.Some?
      ensures outcome == Created ==> docs == old(docs) + [CreatedVault(old(docs), body, hash)]
      ensures QuotaHolds(old(docs)) ==> QuotaHolds(docs)
    {
      if Falsy(body.author) {
        return MissingAuthor;
      }
      var author := body.author.value;
      var existingVaultCount := CountDocuments(docs, author);
      if existingVaultCount >= MaxVaultsPerAuthor {
        return LimitReached;
      }
      var candidate := NewVault(NextId(docs), AttrsOf(body));
      var checked := Validate(candidate);
      if checked.Err? {
        return CreateFailed;
      }
      assert candidate.password.Some? && candidate.author == author;
      var doc := new VaultDocument.New(candidate);
      doc.Save(hash);
      assert doc.data == CreatedVault(docs, body, hash);
      PasswordsStoredAppend(docs, doc.data);
      if QuotaHolds(docs) {
        QuotaPreservedByInsert(docs, doc.data);
      }
      docs := docs + [doc.data];
      outcome := Created;
    }
  }

  /** A vault created by POST opens with the password it was created with,
      given that the hash function's comparison accepts a password against its
      own hash. */
  lemma CreatedVaultUnlocks(docs: seq<Vault>, body: PostBody, hash: string -> string,
                            compare: (string, string) -> bool)
    requires PasswordsStored(docs)
    requires body.password.Some?
    requires compare(body.password.value, hash(body.password.value))
    ensures var v := CreatedVault(docs, body, hash);
      GetVaultIfPasswordMatches(docs + [v], v.id, body.password.value, compare) == Ok(v)
  {
    var v := CreatedVault(docs, body, hash);
    var all := docs + [v];
    var p := body.password.value;
    FindAppended(docs, v);
    PasswordsStoredAppend(docs, v);
    assert CheckPassword(v, p, compare);
  }

  // ---------------------------------------------------------------------------
  // GET

  /** What the listing shows of one vault. */
  datatype Summary = Summary(
    id: VaultId,
    title: string,
    description: Option<string>,
    theme: string,
    vaultType: string,
    category: string,
    author: UserId,
    numberOfPhotos: nat,
    numberOfAudios: nat,
    numberOfVideos: nat,
    numberOfNotes: nat)

  /** The summary of one fetched vault: its descriptive fields and the sizes of its collections. */
  function Summarize(v: Vault): (s: Summary)
    ensures s.id == v.id && s.title == v.title && s.author == v.author
    ensures s.description == v.description && s.theme == v.theme
    ensures s.vaultType == v.vaultType && s.category == v.category
    ensures s.numberOfPhotos == (if v.photos.Some? then |v.photos.value| else 0)
    ensures s.numberOfAudios == (if v.audios.Some? then |v.audios.value| else 0)
    ensures s.numberOfVideos == (if v.videos.Some? then |v.videos.value| else 0)
    ensures s.numberOfNotes == (if v.notes.Some? then |v.notes.value| else 0)
  {
    Summary(v.id, v.title, v.description, v.theme, v.vaultType, v.category, v.author,
            NumberOfPhotos(v), NumberOfAudios(v), NumberOfVideos(v), NumberOfNotes(v))
  }

  /** The success body of GET. */
  datatype ListReply = ListReply(code: int, status: string, message: string, results: nat, data: seq<Summary>)

  /** `GET /api/vaults` over the vaults the query returned, in the query's order. */
  function ListVaults(fetched: seq<Vault>): (r: ListReply)
    ensures r.code == 200 && r.status == "success"
    ensures r.results == |r.data| == |fetched|
    ensures forall i :: 0 <= i < |fetched| ==> r.data[i] == Summarize(fetched[i])
  {
    var vaults := seq(|fetched|, i requires 0 <= i < |fetched| => Summarize(fetched[i]));
    ListReply(200, "success", "Vaults fetched successfully", |vaults|, vaults)
  }

  /** Two vaults that agree on the summarised fields and on the sizes of their collections. */
  predicate SamePublicView(v: Vault, w: Vault)
  {
    v.id == w.id && v.title == w.title && v.description == w.description
    && v.theme == w.theme && v.vaultType == w.vaultType && v.category == w.category
    && v.author == w.author
    && NumberOfPhotos(v) == NumberOfPhotos(w) && NumberOfAudios(v) == NumberOfAudios(w)
    && NumberOfVideos(v) == NumberOfVideos(w) && NumberOfNotes(v) == NumberOfNotes(w)
  }

  /** The listing reveals nothing else: vaults that differ only in their password,
      lockout fields, tags, dates or the contents of their collections give the
      same reply. */
  lemma {:induction false} ListingRedacts(fetched: seq<Vault>, other: seq<Vault>)
    requires |fetched| == |other|
    requires forall i :: 0 <= i < |fetched| ==> SamePublicView(fetched[i], other[i])
    ensures ListVaults(fetched) == ListVaults(other)
  {
    var a, b := ListVaults(fetched), ListVaults(other);
    assert forall i :: 0 <= i < |fetched| ==> a.data[i] == b.data[i];
    assert a.data == b.data;
  }
}
