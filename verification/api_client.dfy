/** The docflow API client: a login session against the docflow service,
    the owner (project) the user currently works for, the document types,
    document upload, document lookup and the document list. Every request
    goes through one REST session; the server's answer to each request is a
    parameter of the operation that sends it. */
module Client {
  import opened Wrappers
  import opened Errors
  import opened ObjectIds
  import opened Json
  import opened Normalize
  import opened Rest
  import opened Cookies
  import opened Pages
  import opened Dates

  const ApiUrl: string := "https://api.docflow.ai"

  /** The login request body: the e-mail and the hex SHA-256 of the password. */
  function Credentials(email: string, passwordHash: string): Json {
    JObj(map["email" := JStr(email), "password" := JStr(passwordHash)])
  }

  /** An object without one of its properties (`unset`). */
  function Without(j: Json, key: string): (r: Json)
    requires j.JObj?
    ensures r.JObj? && r.fields.Keys == j.fields.Keys - {key}
    ensures forall k :: k in r.fields ==> r.fields[k] == j.fields[k]
  {
    JObj(j.fields - {key})
  }

  /** An optional string parameter as PHP holds it: the string, or null. */
  function Nullable(s: Option<string>): Json {
    if s.Some? then JStr(s.value) else JNull
  }

  /** The upload request body. */
  function UploadBody(name: string, doctype: Json, pages: seq<Page>): Json {
    JObj(map[
      "name" := JStr(name),
      "documentType" := doctype,
      "process" := JInt(0),
      "origin" := JArr(seq(|pages|, i requires 0 <= i < |pages| => PageJson(pages[i])))])
  }

  /** The document-list request body: newest first, created between the two dates. */
  function ListQuery(from: DateTime, to: DateTime, doctype: Json): Json {
    JObj(map[
      "project" := doctype,
      "sortField" := JStr("_id"),
      "sortOrder" := JInt(-1),
      "filters" := JObj(map[
        "createdAtFrom" := JStr(FormatDate(from)),
        "createdAtTo" := JStr(FormatDate(to))])])
  }

  /** The change-owner request for `ownerId`. */
  function ChangeRequest(ownerId: ObjectId, cookie: map<string, string>): Request {
    Request(Verb.Post, ApiUrl + "/user/change-owner", JObj(map["id" := JStr(ownerId.oid)]), cookie)
  }

  /** The request that lists the document types. */
  function TypesRequest(cookie: map<string, string>): Request {
    Request(Verb.Get, ApiUrl + "/doctypes", JNull, cookie)
  }

  /** The upload request. */
  function UploadRequest(name: string, doctype: Json, pages: seq<Page>, cookie: map<string, string>): Request {
    Request(Verb.Post, ApiUrl + "/document", UploadBody(name, doctype, pages), cookie)
  }

  /** What uploadDocument does once the types are listed as `types`, with
      the requests `sent` sent so far and the cookies `cookie`: the doctype
      must be listed and the file must be a PDF or an image; then the pages
      are uploaded under the file's basename. `sentAfter` and `cookieAfter`
      are the log and the cookies it leaves. */
  predicate Uploaded(filepath: string, doctype: Option<string>, file: FileInfo, lib: Builtins, types: seq<Json>,
                     cookie: map<string, string>, uploadResponse: Response, sent: seq<Request>,
                     sentAfter: seq<Request>, cookieAfter: map<string, string>, r: Result<Option<ObjectId>, Error>)
  {
    var pages := PagesOf(file, Basename(filepath), lib);
    && (!InArray(Nullable(doctype), types) ==>
          r == Failure(WrongDoctype) && sentAfter == sent && cookieAfter == cookie)
    && (InArray(Nullable(doctype), types) && pages.Failure? ==>
          r == Failure(UnsupportedType(file.mime)) && sentAfter == sent && cookieAfter == cookie)
    && (InArray(Nullable(doctype), types) && pages.Success? ==>
          && |pages.value| >= 1
          && sentAfter == sent + [UploadRequest(Basename(filepath), Nullable(doctype), pages.value, cookie)]
          && cookieAfter == CookiesAfter(cookie, uploadResponse)
          && (uploadResponse.status != 200 ==> r == Failure(ApiError(uploadResponse.status)))
          && (uploadResponse.status == 200 && !Succeeded(uploadResponse.body) ==> r == Success(None))
          && (uploadResponse.status == 200 && Succeeded(uploadResponse.body) ==>
                var id := ToObjectId(Prop(uploadResponse.body, "id"));
                r == if id.Success? then Success(Some(id.value)) else Failure(id.error)))
  }

  /** The request that fetches the document `id`. */
  function DocumentRequest(id: ObjectId, cookie: map<string, string>): Request {
    Request(Verb.Get, ApiUrl + "/document/" + id.oid, JNull, cookie)
  }

  /** What login and changeOwner leave stored when they store `user` over
      the profile `before`: `userData` is typed `\stdClass`, so a value that
      is not an object is refused before it is stored; an object is stored,
      then its `_id`, then its `currentOwnerId` converted in place, and a
      conversion that fails stops there and leaves what was stored so far. */
  function StoredProfile(before: Json, user: Json): (p: Json)
    ensures NormalizeProfile(user).Success? ==> p == NormalizeProfile(user).value
    ensures !user.JObj? ==> p == before
    ensures user.JObj? && ToObjectId(Prop(user, "_id")).Failure? ==> p == user
    ensures user.JObj? && ToObjectId(Prop(user, "_id")).Success? && NormalizeProfile(user).Failure? ==>
      && p == WithObjectId(user, "_id").value
      && Prop(p, "_id") == JId(ToObjectId(Prop(user, "_id")).value)
      && Prop(p, "currentOwnerId") == Prop(user, "currentOwnerId")
    ensures user.JObj? ==>
      && p.JObj? && p.fields.Keys >= user.fields.Keys
      && forall k :: k in user.fields && k != "_id" && k != "currentOwnerId" ==> p.fields[k] == user.fields[k]
  {
    if !user.JObj? then before
    else
      match WithObjectId(user, "_id")
      case Failure(_) => user
      case Success(withId) =>
        match WithObjectId(withId, "currentOwnerId")
        case Failure(_) => withId
        case Success(p) => p
  }

  /** The owner switch of getDocumentInfo on its own: given the current
      owner, the memberships, the cookies and the profile before it,
      `switched` are the requests it sends, `after` and `cookieAfter` the
      profile and cookies it leaves and `r` its outcome. Nothing is sent when
      the owner is already the current one or cannot be looked up; a member
      switches with one change-owner request; a non-member is refused
      without a request. */
  predicate Followed(current: Result<OwnerView, Error>, owners: Result<seq<Json>, Error>,
                     cookie: map<string, string>, ownerId: ObjectId, changeResponse: Response,
                     switched: seq<Request>, before: Json, after: Json, cookieAfter: map<string, string>,
                     r: Result<(), Error>)
  {
    && (current.Failure? ==>
          r == Failure(current.error) && switched == [] && after == before && cookieAfter == cookie)
    && (current.Success? && LooseEquals(JId(ownerId), current.value.id) ==>
          r == Success(()) && switched == [] && after == before && cookieAfter == cookie)
    && (current.Success? && !LooseEquals(JId(ownerId), current.value.id) ==>
          if owners.Success? && IsMember(owners.value, ownerId) then
            && switched == [ChangeRequest(ownerId, cookie)]
            && cookieAfter == CookiesAfter(cookie, changeResponse)
            && (changeResponse.status != 200 ==> r == Failure(ApiError(changeResponse.status)) && after == before)
            && (changeResponse.status == 200 && !Succeeded(changeResponse.body) ==> r == Success(()) && after == before)
            && (changeResponse.status == 200 && Succeeded(changeResponse.body) ==>
                  var user := Without(changeResponse.body, "success");
                  && after == StoredProfile(before, user)
                  && r == if NormalizeProfile(user).Success? then Success(()) else Failure(NormalizeProfile(user).error))
          else
            r == Failure(NoRightsForOwner) && switched == [] && after == before && cookieAfter == cookie)
  }

  /** The document fetch with the cookies `cookie`: the answer prepared, or
      the API error; `cookieAfter` are the cookies it leaves. */
  predicate Fetched(docResponse: Response, cookie: map<string, string>, cookieAfter: map<string, string>,
                    r: Result<Json, Error>)
  {
    && cookieAfter == CookiesAfter(cookie, docResponse)
    && (docResponse.status == 200 ==> r == PrepareDocumentInfo(docResponse.body))
    && (docResponse.status != 200 ==> r == Failure(ApiError(docResponse.status)))
  }

  /** What getDocumentInfo does once the lookup named `owner` as the owner of
      the document `id`, case by case: `later` are the requests sent from
      then on, `after` and `cookieAfter` the profile and cookies it leaves. A
      document owned by the current owner is fetched at once; for another
      owner the user is a member of, the change-owner request comes first
      and the fetch follows unless that request failed or its profile did
      not convert; nothing is sent for an owner that cannot be read or that
      the user is not a member of. */
  predicate Lookup(owner: Result<ObjectId, Error>, current: Result<OwnerView, Error>,
                   owners: Result<seq<Json>, Error>, cookie: map<string, string>, id: ObjectId,
                   changeResponse: Response, docResponse: Response, later: seq<Request>,
                   before: Json, after: Json, cookieAfter: map<string, string>, r: Result<Json, Error>)
  {
    if owner.Failure? then
      r == Failure(owner.error) && later == [] && after == before && cookieAfter == cookie
    else
      var ownerId := owner.value;
      var changed := HeaderCookies(changeResponse.header);
      && (current.Failure? ==>
            r == Failure(current.error) && later == [] && after == before && cookieAfter == cookie)
      && (current.Success? && LooseEquals(JId(ownerId), current.value.id) ==>
            later == [DocumentRequest(id, cookie)] && after == before && Fetched(docResponse, cookie, cookieAfter, r))
      && (current.Success? && !LooseEquals(JId(ownerId), current.value.id) ==>
            if owners.Success? && IsMember(owners.value, ownerId) then
              && (changeResponse.status != 200 ==>
                    && r == Failure(ApiError(changeResponse.status)) && later == [ChangeRequest(ownerId, cookie)]
                    && after == before && cookieAfter == cookie)
              && (changeResponse.status == 200 && !Succeeded(changeResponse.body) ==>
                    && later == [ChangeRequest(ownerId, cookie), DocumentRequest(id, changed)]
                    && after == before && Fetched(docResponse, changed, cookieAfter, r))
              && (changeResponse.status == 200 && Succeeded(changeResponse.body) ==>
                    var user := Without(changeResponse.body, "success");
                    && after == StoredProfile(before, user)
                    && (NormalizeProfile(user).Failure? ==>
                          && r == Failure(NormalizeProfile(user).error) && later == [ChangeRequest(ownerId, cookie)]
                          && cookieAfter == changed)
                    && (NormalizeProfile(user).Success? ==>
                          && later == [ChangeRequest(ownerId, cookie), DocumentRequest(id, changed)]
                          && Fetched(docResponse, changed, cookieAfter, r)))
            else
              r == Failure(NoRightsForOwner) && later == [] && after == before && cookieAfter == cookie)
  }

  /** Following the owner and then, when that went through, fetching the
      document is the lookup getDocumentInfo promises. */
  lemma FollowThenFetch(current: Result<OwnerView, Error>, owners: Result<seq<Json>, Error>,
                        cookie: map<string, string>, ownerId: ObjectId, id: ObjectId,
                        changeResponse: Response, docResponse: Response,
                        switched: seq<Request>, later: seq<Request>, before: Json, after: Json,
                        cookieMid: map<string, string>, cookieAfter: map<string, string>,
                        followed: Result<(), Error>, r: Result<Json, Error>)
    requires Followed(current, owners, cookie, ownerId, changeResponse, switched, before, after, cookieMid, followed)
    requires followed.Failure? ==> later == switched && r == Failure(followed.error) && cookieAfter == cookieMid
    requires followed.Success? ==>
      later == switched + [DocumentRequest(id, cookieMid)] && Fetched(docResponse, cookieMid, cookieAfter, r)
    ensures Lookup(Success(ownerId), current, owners, cookie, id, changeResponse, docResponse, later,
                   before, after, cookieAfter, r)
  {
  }

  lemma AppendAssoc<T>(a: seq<T>, s: seq<T>, x: T)
    ensures a + s + [x] == a + (s + [x])
  {
  }

  class APIClient {
    /** Set by a successful login; nothing clears it. */
    var isLoggedIn: bool
    /** The user profile of the last successful login or owner change
        (null before the first). */
    var userData: Json
    const session: RESTClient

    constructor()
      ensures !isLoggedIn && userData == JNull
      ensures fresh(session) && session.cookie == map[] && session.sent == []
    {
      isLoggedIn := false;
      userData := JNull;
      session := new RESTClient();
    }

    function IsLoggedIn(): (b: bool)
      reads this
      ensures b <==> isLoggedIn
    {
      isLoggedIn
    }

    /** The guard of every operation but logout, hasOwner and the document list. */
    function CheckLoggedIn(): (r: Result<(), Error>)
      reads this
      ensures r.Success? <==> isLoggedIn
      ensures r.Failure? ==> r.error == NotLoggedIn
    {
      if isLoggedIn then Success(()) else Failure(NotLoggedIn)
    }

    /** getOwners: the memberships of the profile, each with an ObjectId id. */
    function GetOwners(): (r: Result<seq<Json>, Error>)
      reads this
      ensures !isLoggedIn ==> r == Failure(NotLoggedIn)
      ensures isLoggedIn ==> r == Owners(userData)
      ensures r.Success? ==> forall i :: 0 <= i < |r.value| ==> Prop(r.value[i], "id").JId?
    {
      var _ :- CheckLoggedIn();
      Owners(userData)
    }

    /** getOwner: the current owner as the profile describes it. */
    function GetOwner(): (r: Result<OwnerView, Error>)
      reads this
      ensures r.Success? <==> GetOwners().Success?
      ensures !isLoggedIn ==> r == Failure(NotLoggedIn)
      ensures isLoggedIn ==> r == CurrentOwner(userData)
      ensures r.Success? ==> r.value.id == Prop(userData, "currentOwnerId")
    {
      var _ :- CheckLoggedIn();
      CurrentOwner(userData)
    }

    /** Whether changeOwner gets as far as sending its request. */
    predicate MayChangeOwner(ownerId: ObjectId)
      reads this
    {
      isLoggedIn && GetOwners().Success? && IsMember(GetOwners().value, ownerId)
    }

    /** Stores a profile as login and changeOwner do; the answer is true, or
        the error of the first id that fails to convert. */
    method StoreProfile(user: Json) returns (r: Result<bool, Error>)
      modifies this`userData
      ensures userData == StoredProfile(old(userData), user)
      ensures r == if NormalizeProfile(user).Success? then Success(true) else Failure(NormalizeProfile(user).error)
    {
      if !user.JObj? {
        return Failure(TypeError);
      }
      userData := user;
      var withId := WithObjectId(userData, "_id");
      if withId.Failure? {
        return Failure(withId.error);
      }
      userData := withId.value;
      var withOwner := WithObjectId(userData, "currentOwnerId");
      if withOwner.Failure? {
        return Failure(withOwner.error);
      }
      userData := withOwner.value;
      return Success(true);
    }

    /** login: posts the credentials; on a successful answer the client is
        logged in (even when the profile then fails to convert) and keeps
        the converted profile. Every answer with status 200 replaces the
        session cookies, an accepted login or not. */
    method Login(email: string, password: string, lib: Builtins, response: Response) returns (r: Result<bool, Error>)
      modifies this, session
      ensures session.sent == old(session.sent) +
        [Request(Verb.Post, ApiUrl + "/user/login", Credentials(email, lib.sha256(password)), old(session.cookie))]
      ensures session.cookie == CookiesAfter(old(session.cookie), response)
      ensures response.status != 200 ==>
        r == Failure(ApiError(response.status)) && isLoggedIn == old(isLoggedIn) && userData == old(userData)
      ensures response.status == 200 && !Succeeded(response.body) ==>
        r == Success(false) && isLoggedIn == old(isLoggedIn) && userData == old(userData)
      ensures response.status == 200 && Succeeded(response.body) ==>
        var user := Prop(response.body, "user");
        && isLoggedIn
        && userData == StoredProfile(old(userData), user)
        && r == if NormalizeProfile(user).Success? then Success(true) else Failure(NormalizeProfile(user).error)
    {
      var answer := session.Post(ApiUrl + "/user/login", Credentials(email, lib.sha256(password)), response);
      if answer.Failure? {
        return Failure(answer.error);
      }
      var body := answer.value;
      if Succeeded(body) {
        isLoggedIn := true;
        r := StoreProfile(Prop(body, "user"));
      } else {
        r := Success(false);
      }
    }

    /** logout: posts an empty body and reports success; the login flag and
        the profile stay as they are. */
    method Logout(response: Response) returns (r: Result<bool, Error>)
      modifies session
      ensures session.sent == old(session.sent) + [Request(Verb.Post, ApiUrl + "/user/logout", JArr([]), old(session.cookie))]
      ensures session.cookie == CookiesAfter(old(session.cookie), response)
      ensures response.status == 200 ==> r == Success(true)
      ensures response.status != 200 ==> r == Failure(ApiError(response.status))
      ensures isLoggedIn == old(isLoggedIn) && userData == old(userData)
    {
      var answer := session.Post(ApiUrl + "/user/logout", JArr([]), response);
      if answer.Failure? {
        return Failure(answer.error);
      }
      return Success(true);
    }

    /** hasOwner: whether the user is a member of the owner `objectId`. */
    method HasOwner(objectId: ObjectId) returns (r: Result<bool, Error>)
      ensures r.Failure? <==> GetOwners().Failure?
      ensures r.Failure? ==> r.error == GetOwners().error
      ensures r.Success? ==> (r.value <==> IsMember(GetOwners().value, objectId))
    {
      var owners :- GetOwners();
      var found := FindOwner(owners, objectId);
      return Success(found);
    }

    /** The loop of hasOwner: the first entry whose id equals `objectId`
        (PHP `==`) ends the search. */
    static method FindOwner(owners: seq<Json>, objectId: ObjectId) returns (found: bool)
      ensures found <==> IsMember(owners, objectId)
    {
      for i := 0 to |owners|
        invariant forall j :: 0 <= j < i ==> !OwnerIs(owners[j], objectId)
      {
        if LooseIdEquals(Prop(owners[i], "id"), JId(objectId)) {
          return true;
        }
      }
      return false;
    }

    /** changeOwner: only for an owner the user is a member of, and before
        any request; an accepted change replaces the profile by the answer
        (without its `success` flag), a refused one leaves it. */
    method ChangeOwner(ownerId: ObjectId, response: Response) returns (r: Result<bool, Error>)
      modifies this, session
      ensures isLoggedIn == old(isLoggedIn)
      ensures !old(isLoggedIn) ==> r == Failure(NotLoggedIn)
      ensures old(isLoggedIn) && old(GetOwners()).Failure? ==> r == Failure(old(GetOwners()).error)
      ensures old(isLoggedIn) && old(GetOwners()).Success? && !IsMember(old(GetOwners()).value, ownerId) ==>
        r == Failure(NoRightsForOwner)
      ensures !old(MayChangeOwner(ownerId)) ==>
        session.sent == old(session.sent) && session.cookie == old(session.cookie) && userData == old(userData)
      ensures old(MayChangeOwner(ownerId)) ==>
        && session.sent == old(session.sent) + [ChangeRequest(ownerId, old(session.cookie))]
        && session.cookie == CookiesAfter(old(session.cookie), response)
      ensures old(MayChangeOwner(ownerId)) && response.status != 200 ==>
        r == Failure(ApiError(response.status)) && userData == old(userData)
      ensures old(MayChangeOwner(ownerId)) && response.status == 200 && !Succeeded(response.body) ==>
        r == Success(false) && userData == old(userData)
      ensures old(MayChangeOwner(ownerId)) && response.status == 200 && Succeeded(response.body) ==>
        var user := Without(response.body, "success");
        && userData == StoredProfile(old(userData), user)
        && r == if NormalizeProfile(user).Success? then Success(true) else Failure(NormalizeProfile(user).error)
    {
      var _ :- CheckLoggedIn();
      var member :- HasOwner(ownerId);
      if !member {
        return Failure(NoRightsForOwner);
      }
      var answer := session.Post(ApiUrl + "/user/change-owner", JObj(map["id" := JStr(ownerId.oid)]), response);
      if answer.Failure? {
        return Failure(answer.error);
      }
      var body := answer.value;
      if Succeeded(body) {
        r := StoreProfile(Without(body, "success"));
      } else {
        r := Success(false);
      }
    }

    /** getDocumentTypes: the ids of the document types the server lists. */
    method GetDocumentTypes(response: Response) returns (r: Result<seq<Json>, Error>)
      modifies session
      ensures !isLoggedIn ==>
        r == Failure(NotLoggedIn) && session.sent == old(session.sent) && session.cookie == old(session.cookie)
      ensures isLoggedIn ==>
        session.sent == old(session.sent) + [TypesRequest(old(session.cookie))]
      ensures isLoggedIn && response.status != 200 ==>
        r == Failure(ApiError(response.status)) && session.cookie == old(session.cookie)
      ensures isLoggedIn && response.status == 200 ==>
        r == Success(DoctypeIds(response.body)) && session.cookie == HeaderCookies(response.header)
    {
      var _ :- CheckLoggedIn();
      var answer := session.Get(ApiUrl + "/doctypes", response);
      if answer.Failure? {
        return Failure(answer.error);
      }
      return Success(DoctypeIds(answer.value));
    }

    /** uploadDocument: login, then the file, then the doctype (against the
        listed types), then the file type are checked, in that order; the
        upload sends the file's basename (the `name` argument is not used)
        and the pages; an accepted upload gives the new document's id. */
    method UploadDocument(filepath: string, doctype: Option<string>, name: Option<string>, file: FileInfo,
                          lib: Builtins, typesResponse: Response, uploadResponse: Response)
      returns (r: Result<Option<ObjectId>, Error>)
      modifies session
      ensures !isLoggedIn ==>
        r == Failure(NotLoggedIn) && session.sent == old(session.sent) && session.cookie == old(session.cookie)
      ensures isLoggedIn && !file.present ==>
        r == Failure(FileNotFound) && session.sent == old(session.sent) && session.cookie == old(session.cookie)
      ensures isLoggedIn && file.present && typesResponse.status != 200 ==>
        && r == Failure(ApiError(typesResponse.status))
        && session.sent == old(session.sent) + [TypesRequest(old(session.cookie))]
        && session.cookie == old(session.cookie)
      ensures isLoggedIn && file.present && typesResponse.status == 200 ==>
        Uploaded(filepath, doctype, file, lib, DoctypeIds(typesResponse.body), HeaderCookies(typesResponse.header),
                 uploadResponse, old(session.sent) + [TypesRequest(old(session.cookie))], session.sent, session.cookie, r)
    {
      var _ :- CheckLoggedIn();
      if !file.present {
        return Failure(FileNotFound);
      }
      var types :- GetDocumentTypes(typesResponse);
      r := UploadListed(filepath, doctype, file, lib, types, uploadResponse);
    }

    /** uploadDocument once the types are listed as `types`. */
    method UploadListed(filepath: string, doctype: Option<string>, file: FileInfo, lib: Builtins,
                        types: seq<Json>, uploadResponse: Response)
      returns (r: Result<Option<ObjectId>, Error>)
      modifies session
      ensures Uploaded(filepath, doctype, file, lib, types, old(session.cookie), uploadResponse,
                       old(session.sent), session.sent, session.cookie, r)
    {
      if !InArray(Nullable(doctype), types) {
        return Failure(WrongDoctype);
      }
      PagesOutcome(file, Basename(filepath), lib);
      var origin :- PrepareDocumentPages(file, Basename(filepath), lib);
      // `if (!count($origin))` cannot fire: an accepted file has a page.
      assert |origin| > 0;
      r := SendUpload(Basename(filepath), Nullable(doctype), origin, uploadResponse);
    }

    /** The upload request of uploadDocument and what its answer gives: the
        new document's id when the upload was accepted, none when refused. */
    method SendUpload(name: string, doctype: Json, origin: seq<Page>, response: Response)
      returns (r: Result<Option<ObjectId>, Error>)
      modifies session
      ensures session.sent == old(session.sent) + [UploadRequest(name, doctype, origin, old(session.cookie))]
      ensures session.cookie == CookiesAfter(old(session.cookie), response)
      ensures response.status != 200 ==> r == Failure(ApiError(response.status))
      ensures response.status == 200 && !Succeeded(response.body) ==> r == Success(None)
      ensures response.status == 200 && Succeeded(response.body) ==>
        var id := ToObjectId(Prop(response.body, "id"));
        r == if id.Success? then Success(Some(id.value)) else Failure(id.error)
    {
      var answer := session.Post(ApiUrl + "/document", UploadBody(name, doctype, origin), response);
      if answer.Failure? {
        return Failure(answer.error);
      }
      var body := answer.value;
      if Succeeded(body) {
        var id :- ToObjectId(Prop(body, "id"));
        return Success(Some(id));
      }
      return Success(None);
    }

    /** The owner switch of getDocumentInfo: when `ownerId` is not the
        current owner, changeOwner to it (whatever that answers). */
    method FollowOwner(ownerId: ObjectId, changeResponse: Response) returns (r: Result<(), Error>, ghost switched: seq<Request>)
      requires isLoggedIn
      modifies this, session
      ensures isLoggedIn
      ensures session.sent == old(session.sent) + switched
      ensures Followed(old(GetOwner()), old(GetOwners()), old(session.cookie), ownerId, changeResponse,
                       switched, old(userData), userData, session.cookie, r)
    {
      switched := [];
      var current := GetOwner();
      if current.Failure? {
        return Failure(current.error), switched;
      }
      if !LooseEquals(JId(ownerId), current.value.id) {
        if MayChangeOwner(ownerId) {
          switched := [ChangeRequest(ownerId, session.cookie)];
        }
        var changed := ChangeOwner(ownerId, changeResponse);
        if changed.Failure? {
          return Failure(changed.error), switched;
        }
      }
      return Success(()), switched;
    }

    /** What getDocumentInfo does once the lookup answered `info`: switch to
        the document's owner when it is not the current one, then fetch the
        document and prepare it. `later` are the requests this sends. */
    method OpenDocument(id: ObjectId, info: Json, changeResponse: Response, docResponse: Response)
      returns (r: Result<Json, Error>, ghost later: seq<Request>)
      requires isLoggedIn
      modifies this, session
      ensures isLoggedIn
      ensures session.sent == old(session.sent) + later
      ensures Lookup(ToObjectId(Prop(info, "ownerId")), old(GetOwner()), old(GetOwners()), old(session.cookie), id,
                     changeResponse, docResponse, later, old(userData), userData, session.cookie, r)
    {
      later := [];
      var owner := ToObjectId(Prop(info, "ownerId"));
      if owner.Failure? {
        return Failure(owner.error), later;
      }
      ghost var current, owners, cookie, profile := GetOwner(), GetOwners(), session.cookie, userData;
      var followed, switched := FollowOwner(owner.value, changeResponse);
      ghost var cookieMid := session.cookie;
      if followed.Failure? {
        r, later := Failure(followed.error), switched;
      } else {
        r := FetchDocument(id, docResponse);
        later := switched + [DocumentRequest(id, cookieMid)];
        AppendAssoc(old(session.sent), switched, DocumentRequest(id, cookieMid));
      }
      FollowThenFetch(current, owners, cookie, owner.value, id, changeResponse, docResponse, switched, later,
                      profile, userData, cookieMid, session.cookie, followed, r);
    }

    /** The fetch of getDocumentInfo: GET the document and prepare it. */
    method FetchDocument(id: ObjectId, docResponse: Response) returns (r: Result<Json, Error>)
      modifies session
      ensures session.sent == old(session.sent) + [DocumentRequest(id, old(session.cookie))]
      ensures Fetched(docResponse, old(session.cookie), session.cookie, r)
    {
      var doc := session.Get(ApiUrl + "/document/" + id.oid, docResponse);
      r := if doc.Success? then PrepareDocumentInfo(doc.value) else Failure(doc.error);
    }

    /** getDocumentInfo: looks the document up; when it belongs to another
        owner than the current one the client first switches to that owner;
        then it fetches the document and prepares it. `later` are the
        requests sent after the lookup. */
    method GetDocumentInfo(id: ObjectId, infoResponse: Response, changeResponse: Response, docResponse: Response)
      returns (r: Result<Json, Error>, ghost later: seq<Request>)
      modifies this, session
      ensures isLoggedIn == old(isLoggedIn)
      ensures !old(isLoggedIn) ==>
        && r == Failure(NotLoggedIn) && session.sent == old(session.sent)
        && session.cookie == old(session.cookie) && userData == old(userData)
      ensures old(isLoggedIn) ==>
        session.sent == old(session.sent) + [Request(Verb.Get, ApiUrl + "/document/info/" + id.oid, JNull, old(session.cookie))] + later
      ensures old(isLoggedIn) && infoResponse.status != 200 ==>
        && r == Failure(ApiError(infoResponse.status)) && later == []
        && session.cookie == old(session.cookie) && userData == old(userData)
      ensures old(isLoggedIn) && infoResponse.status == 200 && !Truthy(infoResponse.body) ==>
        && r == Failure(NoResponse) && later == []
        && session.cookie == HeaderCookies(infoResponse.header) && userData == old(userData)
      ensures old(isLoggedIn) && infoResponse.status == 200 && Truthy(infoResponse.body) ==>
        Lookup(ToObjectId(Prop(infoResponse.body, "ownerId")), old(GetOwner()), old(GetOwners()),
               HeaderCookies(infoResponse.header), id, changeResponse, docResponse, later,
               old(userData), userData, session.cookie, r)
    {
      later := [];
      if !isLoggedIn {
        return Failure(NotLoggedIn), later;
      }
      ghost var current, owners, profile := GetOwner(), GetOwners(), userData;
      var answer := session.Get(ApiUrl + "/document/info/" + id.oid, infoResponse);
      if answer.Failure? {
        return Failure(answer.error), later;
      }
      var info := answer.value;
      if !Truthy(info) {
        return Failure(NoResponse), later;
      }
      assert GetOwner() == current && GetOwners() == owners && userData == profile;
      r, later := OpenDocument(id, info, changeResponse, docResponse);
    }

    /** getDocumentList: the ids of the documents created between the two
        dates, newest first. There is no login check. */
    method GetDocumentList(from: DateTime, to: DateTime, doctype: Option<string>, response: Response)
      returns (r: Result<seq<ObjectId>, Error>)
      modifies session
      ensures session.sent == old(session.sent) +
        [Request(Verb.Post, ApiUrl + "/documents/ids", ListQuery(from, to, Nullable(doctype)), old(session.cookie))]
      ensures session.cookie == CookiesAfter(old(session.cookie), response)
      ensures response.status != 200 ==> r == Failure(ApiError(response.status))
      ensures response.status == 200 ==> r == DocumentIds(response.body)
    {
      var answer := session.Post(ApiUrl + "/documents/ids", ListQuery(from, to, Nullable(doctype)), response);
      if answer.Failure? {
        return Failure(answer.error);
      }
      r := DocumentIds(answer.value);
    }
  }
}
