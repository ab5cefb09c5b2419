/** The vault document: its schema rules (bounded collections, required fields,
    enumerations, defaults), the derived counts, the pre-save password hook and
    the password-gated lookup. */
module VaultModel {
  import opened Wrappers
  import opened Strings

  /** The document id the database assigns. */
  type VaultId = nat
  /** The id of the owning user account. */
  type UserId = string
  /** A date, as milliseconds; only presence and equality matter here. */
  type Time = int

  datatype Photo = Photo(title: string, photoLink: Option<string>)
  datatype Audio = Audio(title: string, audioLink: Option<string>)
  datatype Video = Video(title: string, videoLink: Option<string>)
  datatype Note = Note(title: string, content: string)

  /** A vault document. A collection is `None` when the document read does not
      hold that path; `password` is `None` when the read did not select it. */
  datatype Vault = Vault(
    id: VaultId,
    title: string,
    description: Option<string>,
    photos: Option<seq<Photo>>,
    audios: Option<seq<Audio>>,
    videos: Option<seq<Video>>,
    notes: Option<seq<Note>>,
    password: Option<string>,
    isLocked: bool,
    failedAttempts: int,
    lockUntil: Option<Time>,
    theme: string,
    vaultType: string,
    tags: seq<string>,
    category: string,
    coverPhoto: Option<string>,
    author: UserId,
    lastAccessedAt: Option<Time>,
    accessCount: int,
    isDeleted: bool,
    expiryDate: Option<Time>)

  const MaxPhotos: nat := 10
  const MaxAudios: nat := 5
  const MaxVideos: nat := 1
  const MaxNotes: nat := 100

  const Themes: set<string> := {"yellow", "red", "blue", "green", "orange"}
  const DefaultTheme: string := "green"
  const VaultTypes: set<string> := {"personal", "shared", "archive"}
  const DefaultVaultType: string := "personal"
  const DefaultCategory: string := "Uncategorized"

  // ---------------------------------------------------------------------------
  // Derived counts

  /** `arr?.length || 0`: the length of a collection, 0 when it is absent. */
  function Length<T>(c: Option<seq<T>>): nat
  {
    if c.Some? then |c.value| else 0
  }

  /** The `numberOfPhotos` virtual: 0 for a document without the array. */
  function NumberOfPhotos(v: Vault): (n: nat)
    ensures v.photos.None? ==> n == 0
    ensures v.photos.Some? ==> n == |v.photos.value|
  {
    Length(v.photos)
  }

  /** The `numberOfAudios` virtual. */
  function NumberOfAudios(v: Vault): (n: nat)
    ensures v.audios.None? ==> n == 0
    ensures v.audios.Some? ==> n == |v.audios.value|
  {
    Length(v.audios)
  }

  /** The `numberOfVideos` virtual. */
  function NumberOfVideos(v: Vault): (n: nat)
    ensures v.videos.None? ==> n == 0
    ensures v.videos.Some? ==> n == |v.videos.value|
  {
    Length(v.videos)
  }

  /** The `numberOfNotes` virtual. */
  function NumberOfNotes(v: Vault): (n: nat)
    ensures v.notes.None? ==> n == 0
    ensures v.notes.Some? ==> n == |v.notes.value|
  {
    Length(v.notes)
  }

  // ---------------------------------------------------------------------------
  // Schema validation

  predicate WithinLimits(v: Vault)
  {
    Length(v.photos) <= MaxPhotos && Length(v.audios) <= MaxAudios
    && Length(v.videos) <= MaxVideos && Length(v.notes) <= MaxNotes
  }

  predicate PhotosTitled(c: Option<seq<Photo>>) { c.Some? ==> forall p :: p in c.value ==> p.title != "" }
  predicate AudiosTitled(c: Option<seq<Audio>>) { c.Some? ==> forall a :: a in c.value ==> a.title != "" }
  predicate VideosTitled(c: Option<seq<Video>>) { c.Some? ==> forall w :: w in c.value ==> w.title != "" }
  predicate NotesTitled(c: Option<seq<Note>>) { c.Some? ==> forall n :: n in c.value ==> n.title != "" }
  predicate NotesWritten(c: Option<seq<Note>>) { c.Some? ==> forall n :: n in c.value ==> n.content != "" }

  /** Every sub-item has a title, and every note has content as well. */
  predicate ItemsComplete(v: Vault)
  {
    PhotosTitled(v.photos) && AudiosTitled(v.audios) && VideosTitled(v.videos)
    && NotesTitled(v.notes) && NotesWritten(v.notes)
  }

  /** The document passes every validator the schema declares. */
  predicate SchemaValid(v: Vault)
  {
    v.title != "" && v.password.Some? && v.password.value != "" && v.author != ""
    && v.theme in Themes && v.vaultType in VaultTypes
    && WithinLimits(v) && ItemsComplete(v)
  }

  /** One failed validator. */
  datatype Violation =
    | TitleRequired | PasswordRequired | AuthorRequired
    | ThemeNotAllowed(theme: string) | VaultTypeNotAllowed(vaultType: string)
    | TooManyPhotos | TooManyAudios | TooManyVideos | TooManyNotes
    | PhotoTitleRequired | AudioTitleRequired | VideoTitleRequired
    | NoteTitleRequired | NoteContentRequired

  /** The failed validators of the document's own fields. */
  function FieldViolations(v: Vault): (r: set<Violation>)
    ensures r == {} <==>
      v.title != "" && v.password.Some? && v.password.value != "" && v.author != ""
      && v.theme in Themes && v.vaultType in VaultTypes
    ensures r <= {TitleRequired, PasswordRequired, AuthorRequired,
                  ThemeNotAllowed(v.theme), VaultTypeNotAllowed(v.vaultType)}
  {
    (if v.title == "" then {TitleRequired} else {})
    + (if v.password.None? || v.password.value == "" then {PasswordRequired} else {})
    + (if v.author == "" then {AuthorRequired} else {})
    + (if v.theme !in Themes then {ThemeNotAllowed(v.theme)} else {})
    + (if v.vaultType !in VaultTypes then {VaultTypeNotAllowed(v.vaultType)} else {})
  }

  /** The failed length validators of the four collections. */
  function LimitViolations(v: Vault): (r: set<Violation>)
    ensures r == {} <==> WithinLimits(v)
    ensures TooManyPhotos in r <==> Length(v.photos) > MaxPhotos
    ensures TooManyAudios in r <==> Length(v.audios) > MaxAudios
    ensures TooManyVideos in r <==> Length(v.videos) > MaxVideos
    ensures TooManyNotes in r <==> Length(v.notes) > MaxNotes
    ensures r <= {TooManyPhotos, TooManyAudios, TooManyVideos, TooManyNotes}
  {
    (if Length(v.photos) > MaxPhotos then {TooManyPhotos} else {})
    + (if Length(v.audios) > MaxAudios then {TooManyAudios} else {})
    + (if Length(v.videos) > MaxVideos then {TooManyVideos} else {})
    + (if Length(v.notes) > MaxNotes then {TooManyNotes} else {})
  }

  /** The failed required-field validators of the sub-items. */
  function ItemViolations(v: Vault): (r: set<Violation>)
    ensures r == {} <==> ItemsComplete(v)
    ensures NoteContentRequired in r <==> !NotesWritten(v.notes)
    ensures r <= {PhotoTitleRequired, AudioTitleRequired, VideoTitleRequired,
                  NoteTitleRequired, NoteContentRequired}
  {
    (if !PhotosTitled(v.photos) then {PhotoTitleRequired} else {})
    + (if !AudiosTitled(v.audios) then {AudioTitleRequired} else {})
    + (if !VideosTitled(v.videos) then {VideoTitleRequired} else {})
    + (if !NotesTitled(v.notes) then {NoteTitleRequired} else {})
    + (if !NotesWritten(v.notes) then {NoteContentRequired} else {})
  }

  /** Every validator that fails on `v`. */
  function Violations(v: Vault): set<Violation>
  {
    FieldViolations(v) + LimitViolations(v) + ItemViolations(v)
  }

  /** No validator fails exactly when the document is schema-valid. */
  lemma ViolationsEmptyIff(v: Vault)
    ensures Violations(v) == {} <==> SchemaValid(v)
  {
    var fields, limits, items := FieldViolations(v), LimitViolations(v), ItemViolations(v);
    if fields != {} { var e :| e in fields; assert e in Violations(v); }
    if limits != {} { var e :| e in limits; assert e in Violations(v); }
    if items != {} { var e :| e in items; assert e in Violations(v); }
  }

  /** The length violations reported are exactly the collections over their limit. */
  lemma ViolationsOfLimits(v: Vault)
    ensures TooManyPhotos in Violations(v) <==> Length(v.photos) > MaxPhotos
    ensures TooManyAudios in Violations(v) <==> Length(v.audios) > MaxAudios
    ensures TooManyVideos in Violations(v) <==> Length(v.videos) > MaxVideos
    ensures TooManyNotes in Violations(v) <==> Length(v.notes) > MaxNotes
    ensures NoteContentRequired in Violations(v) <==> !NotesWritten(v.notes)
  {
    var fields, items := FieldViolations(v), ItemViolations(v);
    assert TooManyPhotos !in fields && TooManyPhotos !in items;
    assert TooManyAudios !in fields && TooManyAudios !in items;
    assert TooManyVideos !in fields && TooManyVideos !in items;
    assert TooManyNotes !in fields && TooManyNotes !in items;
    assert NoteContentRequired !in fields && NoteContentRequired !in LimitViolations(v);
  }

  /** `doc.validate()`: the document itself, or the non-empty set of failed validators. */
  function Validate(v: Vault): (r: Result<Vault, set<Violation>>)
    ensures r.Ok? <==> SchemaValid(v)
    ensures r.Ok? ==> r.value == v
    ensures r.Err? ==> r.error != {}
    ensures r.Err? ==> (TooManyPhotos in r.error <==> Length(v.photos) > MaxPhotos)
    ensures r.Err? ==> (TooManyAudios in r.error <==> Length(v.audios) > MaxAudios)
    ensures r.Err? ==> (TooManyVideos in r.error <==> Length(v.videos) > MaxVideos)
    ensures r.Err? ==> (TooManyNotes in r.error <==> Length(v.notes) > MaxNotes)
    ensures r.Err? ==> (NoteContentRequired in r.error <==> !NotesWritten(v.notes))
  {
    ViolationsEmptyIff(v);
    ViolationsOfLimits(v);
    var errors := Violations(v);
    if errors == {} then Ok(v) else Err(errors)
  }

  // ---------------------------------------------------------------------------
  // Creation

  /** The fields `Vault.create` is given; `None` is a field the caller left undefined. */
  datatype CreateAttrs = CreateAttrs(
    title: Option<string>,
    description: Option<string>,
    theme: Option<string>,
    password: Option<string>,
    category: Option<string>,
    author: Option<UserId>)

  function OrElse(o: Option<string>, fallback: string): string
  {
    if o.Some? then o.value else fallback
  }

  /** The document `new Vault(attrs)` builds, before validation and before the
      pre-save hook: trimmed strings, schema defaults for every field not given. */
  function NewVault(id: VaultId, a: CreateAttrs): (v: Vault)
    ensures v.id == id && v.author == OrElse(a.author, "")
    ensures v.title == Trim(OrElse(a.title, ""))
    ensures v.description == if a.description.Some? then Some(Trim(a.description.value)) else None
    ensures v.password == a.password
    ensures v.theme == OrElse(a.theme, DefaultTheme) && v.category == OrElse(a.category, DefaultCategory)
    ensures v.vaultType == DefaultVaultType && v.tags == []
    ensures v.isLocked && v.failedAttempts == 0 && v.accessCount == 0 && !v.isDeleted
    ensures v.lockUntil.None? && v.lastAccessedAt.None? && v.expiryDate.None? && v.coverPhoto.None?
    ensures NumberOfPhotos(v) == 0 && NumberOfAudios(v) == 0 && NumberOfVideos(v) == 0 && NumberOfNotes(v) == 0
  {
    Vault(
      id := id,
      title := Trim(OrElse(a.title, "")),
      description := if a.description.Some? then Some(Trim(a.description.value)) else None,
      photos := Some([]), audios := Some([]), videos := Some([]), notes := Some([]),
      password := a.password,
      isLocked := true, failedAttempts := 0, lockUntil := None,
      theme := OrElse(a.theme, DefaultTheme),
      vaultType := DefaultVaultType,
      tags := [],
      category := OrElse(a.category, DefaultCategory),
      coverPhoto := None,
      author := OrElse(a.author, ""),
      lastAccessedAt := None, accessCount := 0, isDeleted := false, expiryDate := None)
  }

  /** A new vault passes validation exactly when its title is not blank, a
      password and an author are given, and any theme given is one of the five. */
  lemma NewVaultValidIff(id: VaultId, a: CreateAttrs)
    ensures SchemaValid(NewVault(id, a)) <==>
      && a.title.Some? && Trim(a.title.value) != ""
      && a.password.Some? && a.password.value != ""
      && a.author.Some? && a.author.value != ""
      && (a.theme.None? || a.theme.value in Themes)
  {
    var v := NewVault(id, a);
    assert WithinLimits(v);
    assert ItemsComplete(v);
  }

  // ---------------------------------------------------------------------------
  // The pre-save hook

  /** `v` with its password replaced by its hash; nothing else changes. */
  function Hashed(v: Vault, hash: string -> string): (w: Vault)
    requires v.password.Some?
    ensures w.password == Some(hash(v.password.value))
    ensures w.(password := v.password) == v
  {
    v.(password := Some(hash(v.password.value)))
  }

  /** A document in memory: its current values and whether its password path
      has been set since it was created or read. */
  class VaultDocument {
    var data: Vault
    var isNew: bool
    var passwordModified: bool

    ghost predicate Valid()
      reads this
    {
      passwordModified ==> data.password.Some?
    }

    /** `new Vault(...)`: a path given a value counts as modified. */
    constructor New(v: Vault)
      ensures Valid() && data == v && isNew && passwordModified == v.password.Some?
    {
      data := v;
      isNew := true;
      passwordModified := v.password.Some?;
    }

    /** A document read back from the database: nothing is modified yet. */
    constructor Loaded(v: Vault)
      ensures Valid() && data == v && !isNew && !passwordModified
    {
      data := v;
      isNew := false;
      passwordModified := false;
    }

    /** `doc.password = p`. On a document read back from the database, assigning
        the value the path already holds does not mark it modified. */
    method SetPassword(p: string)
      requires Valid()
      modifies this`data, this`passwordModified
      ensures Valid() && data == old(data).(password := Some(p))
      ensures passwordModified <==> old(passwordModified) || isNew || old(data).password != Some(p)
    {
      passwordModified := passwordModified || isNew || data.password != Some(p);
      data := data.(password := Some(p));
    }

    /** The pre-save hook: hash the password only when it was modified. */
    method PreSave(hash: string -> string)
      requires Valid()
      modifies this`data
      ensures Valid()
      ensures old(passwordModified) ==> data == Hashed(old(data), hash)
      ensures !old(passwordModified) ==> data == old(data)
    {
      if !passwordModified {
        return;
      }
      data := data.(password := Some(hash(data.password.value)));
    }

    /** `doc.save()`: run the hook, persist; afterwards the document is stored
        and no path counts as modified. */
    method Save(hash: string -> string)
      requires Valid()
      modifies this
      ensures Valid() && !isNew && !passwordModified
      ensures data == if old(passwordModified) then Hashed(old(data), hash) else old(data)
    {
      PreSave(hash);
      isNew := false;
      passwordModified := false;
    }
  }

  /** Saving a new document twice hashes its password once: the second save
      finds the password unmodified and leaves the stored hash alone. */
  method SaveTwice(v: Vault, hash: string -> string) returns (stored: Vault)
    requires v.password.Some?
    ensures stored == Hashed(v, hash)
  {
    var doc := new VaultDocument.New(v);
    doc.Save(hash);
    doc.Save(hash);
    stored := doc.data;
  }

  /** Saving a document read back from the database, without touching it,
      stores it as it was: the stored hash is not hashed again. */
  method ResaveLoaded(v: Vault, hash: string -> string) returns (stored: Vault)
    ensures stored == v
  {
    var doc := new VaultDocument.Loaded(v);
    doc.Save(hash);
    stored := doc.data;
  }

  /** Assigning a password to a stored document and saving it stores the hash of
      the new password, unless the value assigned is the one already stored. */
  method ChangePassword(v: Vault, p: string, hash: string -> string) returns (stored: Vault)
    ensures stored.password == Some(if v.password == Some(p) then p else hash(p))
    ensures stored.(password := v.password) == v
  {
    var doc := new VaultDocument.Loaded(v);
    doc.SetPassword(p);
    doc.Save(hash);
    stored := doc.data;
  }

  // ---------------------------------------------------------------------------
  // Queries on the collection

  /** Every stored document holds a password, as the schema requires. */
  predicate PasswordsStored(docs: seq<Vault>)
  {
    forall i :: 0 <= i < |docs| ==> docs[i].password.Some?
  }

  /** Appending a document that holds a password keeps every stored document holding one. */
  lemma PasswordsStoredAppend(docs: seq<Vault>, v: Vault)
    requires PasswordsStored(docs) && v.password.Some?
    ensures PasswordsStored(docs + [v])
  {
    assert forall i :: 0 <= i < |docs| ==> (docs + [v])[i] == docs[i];
  }

  /** The position of the first document with the given id. */
  function IndexOf(docs: seq<Vault>, id: VaultId): (k: Option<nat>)
    ensures k.None? <==> forall i :: 0 <= i < |docs| ==> docs[i].id != id
    ensures k.Some? ==> k.value < |docs| && docs[k.value].id == id
    ensures k.Some? ==> forall j :: 0 <= j < k.value ==> docs[j].id != id
  {
    if docs == [] then None
    else if docs[0].id == id then Some(0)
    else match IndexOf(docs[1..], id)
      case None => None
      case Some(k) => Some(k + 1)
  }

  /** A read projection: the password is left out unless explicitly selected. */
  function Selected(v: Vault, withPassword: bool): Vault
  {
    if withPassword then v else v.(password := None)
  }

  /** `Vault.findById(id)`, with `.select("+password")` when `withPassword`. */
  function FindById(docs: seq<Vault>, id: VaultId, withPassword: bool): (r: Option<Vault>)
    ensures r.None? <==> forall i :: 0 <= i < |docs| ==> docs[i].id != id
    ensures r.Some? ==> r.value.id == id
    ensures r.Some? && withPassword ==> r.value in docs
    ensures r.Some? && !withPassword ==> r.value.password.None?
    ensures r.Some? ==> IndexOf(docs, id).Some?
                        && r.value == Selected(docs[IndexOf(docs, id).value], withPassword)
  {
    match IndexOf(docs, id)
    case None => None
    case Some(k) => Some(Selected(docs[k], withPassword))
  }

  /** A document appended under an id no other document has is the one found by that id. */
  lemma FindAppended(docs: seq<Vault>, v: Vault)
    requires forall i :: 0 <= i < |docs| ==> docs[i].id != v.id
    ensures FindById(docs + [v], v.id, true) == Some(v)
  {
    var all := docs + [v];
    assert all[|docs|] == v;
    assert forall i :: 0 <= i < |docs| ==> all[i] == docs[i];
    assert IndexOf(all, v.id) == Some(|docs|);
  }

  /** `Vault.countDocuments({ author })`: every document of that author, soft-deleted or not. */
  function CountDocuments(docs: seq<Vault>, author: UserId): (n: nat)
    ensures n <= |docs|
    ensures n == 0 <==> forall i :: 0 <= i < |docs| ==> docs[i].author != author
    ensures n == |docs| <==> forall i :: 0 <= i < |docs| ==> docs[i].author == author
  {
    if docs == [] then 0
    else (if docs[0].author == author then 1 else 0) + CountDocuments(docs[1..], author)
  }

  /** Adding one document raises its author's count by one and no other count. */
  lemma {:induction false} CountAppend(docs: seq<Vault>, v: Vault, author: UserId)
    ensures CountDocuments(docs + [v], author)
      == CountDocuments(docs, author) + (if v.author == author then 1 else 0)
  {
    if docs != [] {
      assert (docs + [v])[1..] == docs[1..] + [v];
      CountAppend(docs[1..], v, author);
    }
  }

  /** An id no stored document has: the database's fresh `_id`. */
  function NextId(docs: seq<Vault>): (id: VaultId)
    ensures forall i :: 0 <= i < |docs| ==> docs[i].id < id
  {
    if docs == [] then 0
    else
      var rest := NextId(docs[1..]);
      if docs[0].id + 1 > rest then docs[0].id + 1 else rest
  }

  // ---------------------------------------------------------------------------
  // Password check

  const VaultNotFound: string := "Vault not found"
  const IncorrectPassword: string := "Incorrect password"

  /** `vault.checkPassword(entered)`: the password comparison against the stored hash. */
  function CheckPassword(v: Vault, entered: string, compare: (string, string) -> bool): (ok: bool)
    requires v.password.Some?
    ensures ok <==> compare(entered, v.password.value)
  {
    compare(entered, v.password.value)
  }

  /** `Vault.getVaultIfPasswordMatches(id, entered)`: look the vault up with its
      password, then compare. A missing vault fails before any comparison; the
      vault returned on success is the stored document, unchanged. */
  function GetVaultIfPasswordMatches(docs: seq<Vault>, id: VaultId, entered: string,
                                     compare: (string, string) -> bool): (r: Result<Vault, string>)
    requires PasswordsStored(docs)
    ensures r == Err(VaultNotFound) <==> forall i :: 0 <= i < |docs| ==> docs[i].id != id
    ensures r.Err? ==> r.error == VaultNotFound || r.error == IncorrectPassword
    ensures r.Ok? ==> r.value in docs && r.value.id == id && CheckPassword(r.value, entered, compare)
    ensures r.Ok? ==> FindById(docs, id, true).Some? && r.value == FindById(docs, id, true).value
    ensures r == Err(IncorrectPassword) <==>
      FindById(docs, id, true).Some? && !CheckPassword(FindById(docs, id, true).value, entered, compare)
  {
    var found := FindById(docs, id, true);
    if found.None? then Err(VaultNotFound)
    else if !CheckPassword(found.value, entered, compare) then Err(IncorrectPassword)
    else Ok(found.value)
  }
}
