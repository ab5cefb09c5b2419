/** The vault-creation form: its tag list, its digits-only password field, the
    ordered checks before it sends the request, and what it does with the reply. */
module CreateVault {
  import opened Wrappers
  import opened Strings
  import opened VaultsRoute

  const MaxTags: nat := 5
  const PasswordLength: nat := 6
  const InitialTheme: string := "green"

  const NameRequired: string := "Vault name is required"
  const PasswordMustBeSixDigits: string := "Password must be 6 digits"
  const LoginRequired: string := "You must be logged in to create a vault"
  const CreatedMessage: string := "Vault created successfully!"
  const FailedToCreate: string := "Failed to create vault"
  const ServerError: string := "Server error"

  // ---------------------------------------------------------------------------
  // Tags

  /** At most five tags, each trimmed and non-empty, no two alike.
      (`IsTrimmed(x)` is `Trim(x) == x`, by TrimmedIsFixed.) */
  predicate TagsWellFormed(tags: seq<string>)
  {
    && |tags| <= MaxTags
    && (forall i :: 0 <= i < |tags| ==> IsTag(tags[i]))
    && Distinct(tags)
  }

  /** A tag as `handleAddTag` produces it: non-empty and trimmed. */
  predicate IsTag(x: string)
  {
    x != "" && IsTrimmed(x)
  }

  predicate Distinct(tags: seq<string>)
  {
    forall i, j :: 0 <= i < j < |tags| ==> tags[i] != tags[j]
  }

  /** The tag list and tag input `handleAddTag` leaves: the trimmed input is
      appended, and the input cleared, only when it is non-empty, new and the
      list holds fewer than five tags; otherwise nothing changes. */
  function AddTag(tags: seq<string>, tagInput: string): (r: (seq<string>, string))
    ensures r.0 == tags || r.0 == tags + [Trim(tagInput)]
    ensures r.0 != tags <==> Trim(tagInput) != "" && Trim(tagInput) !in tags && |tags| < MaxTags
    ensures r.1 == if r.0 == tags then tagInput else ""
  {
    var newTag := Trim(tagInput);
    if newTag != "" && newTag !in tags && |tags| < MaxTags then
      assert |tags + [newTag]| != |tags|;
      (tags + [newTag], "")
    else
      (tags, tagInput)
  }

  /** Adding a tag keeps the list well formed. */
  lemma AddTagPreservesWellFormed(tags: seq<string>, tagInput: string)
    requires TagsWellFormed(tags)
    ensures TagsWellFormed(AddTag(tags, tagInput).0)
  {
    var r := AddTag(tags, tagInput).0;
    if r != tags {
      var newTag := Trim(tagInput);
      assert r == tags + [newTag] && IsTag(newTag) && newTag !in tags;
      forall i | 0 <= i < |r|
        ensures IsTag(r[i])
      {
        if i < |tags| {
          assert r[i] == tags[i];
        }
      }
      forall i, j | 0 <= i < j < |r|
        ensures r[i] != r[j]
      {
        assert r[i] == tags[i];
        if j < |tags| {
          assert r[j] == tags[j];
        }
      }
    }
  }

  /** `tags.filter((tag) => tag !== t)`: every tag but `t`, in order. */
  function RemoveTag(tags: seq<string>, t: string): (r: seq<string>)
    ensures forall x :: x in r <==> x in tags && x != t
    ensures |r| <= |tags|
    ensures t !in tags ==> r == tags
  {
    if tags == [] then []
    else if tags[0] == t then RemoveTag(tags[1..], t)
    else [tags[0]] + RemoveTag(tags[1..], t)
  }

  /** On a list without duplicates, removing the tag at position k closes the
      gap and keeps every other tag where it was relative to the rest. */
  lemma {:induction false} RemoveTagAt(tags: seq<string>, k: nat)
    requires k < |tags|
    requires Distinct(tags)
    ensures RemoveTag(tags, tags[k]) == tags[..k] + tags[k + 1..]
  {
    var t := tags[k];
    if k == 0 {
      assert t !in tags[1..];
    } else {
      assert tags[0] != t;
      assert tags[1..][k - 1] == t;
      RemoveTagAt(tags[1..], k - 1);
      assert tags[..k] == [tags[0]] + tags[1..][..k - 1];
      assert tags[k + 1..] == tags[1..][k..];
    }
  }

  /** Deleting one position keeps the list well formed. */
  lemma DeleteAtPreservesWellFormed(tags: seq<string>, k: nat)
    requires TagsWellFormed(tags) && k < |tags|
    ensures TagsWellFormed(tags[..k] + tags[k + 1..])
  {
    var r := tags[..k] + tags[k + 1..];
    assert forall i :: 0 <= i < |r| ==> r[i] == tags[if i < k then i else i + 1];
  }

  /** Removing a tag keeps the list well formed. */
  lemma RemoveTagPreservesWellFormed(tags: seq<string>, t: string)
    requires TagsWellFormed(tags)
    ensures TagsWellFormed(RemoveTag(tags, t))
  {
    if t in tags {
      var k :| 0 <= k < |tags| && tags[k] == t;
      RemoveTagAt(tags, k);
      DeleteAtPreservesWellFormed(tags, k);
    }
  }

  // ---------------------------------------------------------------------------
  // The reply to the creation request

  /** What the HTTP client hands back: a reply, or none (the request never got one). */
  datatype AxiosOutcome = Response(reply: Reply) | NoResponse

  /** The HTTP client resolves on a 2xx status and rejects otherwise. */
  predicate Resolves(code: int)
  {
    200 <= code < 300
  }

  /** `data.message || fallback`. */
  function MessageOr(fields: map<string, string>, fallback: string): string
  {
    if "message" in fields && fields["message"] != "" then fields["message"] else fallback
  }

  /** The success test as written: `res.data.statusText === "success"`. */
  predicate IsSuccessReplyAsWritten(fields: map<string, string>)
  {
    "statusText" in fields && fields["statusText"] == "success"
  }

  /** The success test the route's replies call for: `res.data.status === "success"`. */
  predicate IsSuccessReply(fields: map<string, string>)
  {
    "status" in fields && fields["status"] == "success"
  }

  /** The form treats the outcome as a created vault. */
  predicate Accepted(o: AxiosOutcome)
  {
    o.Response? && Resolves(o.reply.code) && IsSuccessReply(o.reply.fields)
  }

  /** The error the form shows for an outcome it does not accept. */
  function ReportedError(o: AxiosOutcome): string
  {
    match o
    case NoResponse => ServerError
    case Response(r) => if Resolves(r.code) then MessageOr(r.fields, FailedToCreate) else MessageOr(r.fields, ServerError)
  }

  /** As written, the route's own creation reply is not recognised: it resolves,
      carries no `statusText`, and so the form shows the route's success message
      as its error and keeps its fields. */
  lemma AsWrittenReportsCreationAsError(o: PostOutcome)
    ensures !IsSuccessReplyAsWritten(ReplyOf(o).fields)
    ensures Resolves(ReplyOf(Created).code)
    ensures ReportedError(Response(ReplyOf(Created))) == "Vault created successfully"
  {
  }

  /** With the corrected test, the form accepts a reply of the route exactly when
      the route created the vault. */
  lemma CorrectedRecognisesCreation(o: PostOutcome)
    ensures Accepted(Response(ReplyOf(o))) <==> o == Created
  {
  }

  // ---------------------------------------------------------------------------
  // The form

  class CreateVaultForm {
    var vaultName: string
    var password: string
    var theme: string
    var tags: seq<string>
    var tagInput: string
    var description: string
    var loading: bool
    var error: string
    var success: string

    /** The password field holds at most six digits; the tag list is well formed. */
    ghost predicate Valid()
      reads this
    {
      AllDigits(password) && |password| <= PasswordLength && TagsWellFormed(tags)
    }

    constructor ()
      ensures Valid()
      ensures vaultName == "" && password == "" && theme == InitialTheme && tags == []
      ensures tagInput == "" && description == "" && !loading && error == "" && success == ""
    {
      vaultName, password, theme, tags := "", "", InitialTheme, [];
      tagInput, description, loading, error, success := "", "", false, "", "";
    }

    /** The password input's change handler. The input's `maxLength` of six means
        the browser never hands over a longer value. */
    method OnPasswordInput(value: string)
      requires Valid() && |value| <= PasswordLength
      modifies this`password
      ensures Valid() && password == KeepDigits(value)
    {
      password := KeepDigits(value);
    }

    /** `handleAddTag`. */
    method HandleAddTag()
      requires Valid()
      modifies this`tags, this`tagInput
      ensures Valid()
      ensures (tags, tagInput) == AddTag(old(tags), old(tagInput))
    {
      AddTagPreservesWellFormed(tags, tagInput);
      var next := AddTag(tags, tagInput);
      tags, tagInput := next.0, next.1;
    }

    /** `handleRemoveTag(t)`. */
    method HandleRemoveTag(t: string)
      requires Valid()
      modifies this`tags
      ensures Valid()
      ensures tags == RemoveTag(old(tags), t)
    {
      RemoveTagPreservesWellFormed(tags, t);
      tags := RemoveTag(tags, t);
    }

    /** `handleSubmit` up to the request: the three checks in order, the first
        failure setting its message and sending nothing; otherwise the request body. */
    method HandleSubmit(userId: Option<string>) returns (request: Option<PostBody>)
      requires Valid()
      modifies this`error, this`success, this`loading
      ensures Valid() && success == ""
      ensures Trim(vaultName) == "" ==> request.None? && error == NameRequired
      ensures Trim(vaultName) != "" && |password| != PasswordLength
        ==> request.None? && error == PasswordMustBeSixDigits
      ensures Trim(vaultName) != "" && |password| == PasswordLength && Falsy(userId)
        ==> request.None? && error == LoginRequired
      ensures request.None? ==> loading == old(loading)
      ensures request.Some? <==> Trim(vaultName) != "" && |password| == PasswordLength && !Falsy(userId)
      ensures request.Some? ==> loading && error == ""
      ensures request.Some? ==> request.value == PostBody(Some(vaultName), Some(description), Some(theme),
                                                          Some(password), None, userId, Some(tags))
      ensures request.Some? ==> |request.value.password.value| == PasswordLength
                                && AllDigits(request.value.password.value)
                                && !Falsy(request.value.author)
    {
      error := "";
      success := "";
      request := None;
      if Trim(vaultName) == "" {
        error := NameRequired;
        return;
      }
      if |password| != PasswordLength {
        error := PasswordMustBeSixDigits;
        return;
      }
      if Falsy(userId) {
        error := LoginRequired;
        return;
      }
      loading := true;
      request := Some(PostBody(Some(vaultName), Some(description), Some(theme),
                               Some(password), None, userId, Some(tags)));
    }

    /** `handleSubmit` after the request: a created vault resets the form; any
        other outcome shows its error and leaves the fields alone. */
    method ReceiveReply(outcome: AxiosOutcome)
      requires Valid()
      modifies this`vaultName, this`password, this`theme, this`description, this`tags,
               this`loading, this`error, this`success
      ensures Valid() && !loading
      ensures Accepted(outcome) ==>
        && success == CreatedMessage && error == old(error)
        && vaultName == "" && password == "" && theme == InitialTheme
        && description == "" && tags == []
      ensures !Accepted(outcome) ==>
        && error == ReportedError(outcome) && success == old(success)
        && vaultName == old(vaultName) && password == old(password) && theme == old(theme)
        && description == old(description) && tags == old(tags)
    {
      if Accepted(outcome) {
        success := CreatedMessage;
        vaultName, password, theme, description, tags := "", "", InitialTheme, "", [];
      } else {
        error := ReportedError(outcome);
      }
      loading := false;
    }
  }
}
