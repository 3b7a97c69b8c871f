/** Response shaping: the projections and rewrites the client applies to
    decoded responses before handing them to its caller. */
module Normalize {
  import opened Wrappers
  import opened Errors
  import opened ObjectIds
  import opened Json

  // ------------------------------------------------------------ user profile

  /** Replaces the string under `key` of a profile object by an ObjectId. */
  function WithObjectId(profile: Json, key: string): (r: Result<Json, Error>)
    ensures r.Success? <==> profile.JObj? && ToObjectId(Prop(profile, key)).Success?
    ensures !profile.JObj? ==> r == Failure(TypeError)
    ensures r.Failure? && profile.JObj? ==> r.error == ToObjectId(Prop(profile, key)).error
    ensures r.Success? ==>
      && r.value.JObj?
      && r.value.fields.Keys == profile.fields.Keys + {key}
      && Prop(r.value, key) == JId(ToObjectId(Prop(profile, key)).value)
      && forall k :: k in profile.fields && k != key ==> r.value.fields[k] == profile.fields[k]
  {
    if !profile.JObj? then Failure(TypeError)
    else
      var id :- ToObjectId(Prop(profile, key));
      Success(JObj(profile.fields[key := JId(id)]))
  }

  /** The profile as login and changeOwner store it: `_id` and
      `currentOwnerId` turned into ObjectIds, everything else kept. */
  function NormalizeProfile(user: Json): (r: Result<Json, Error>)
    ensures r.Success? <==>
      user.JObj? && ToObjectId(Prop(user, "_id")).Success? &&
      ToObjectId(Prop(user, "currentOwnerId")).Success?
    ensures r.Success? ==>
      && r.value.JObj?
      && r.value.fields.Keys == user.fields.Keys + {"_id", "currentOwnerId"}
      && Prop(r.value, "_id") == JId(ToObjectId(Prop(user, "_id")).value)
      && Prop(r.value, "currentOwnerId") == JId(ToObjectId(Prop(user, "currentOwnerId")).value)
      && forall k :: k in user.fields && k != "_id" && k != "currentOwnerId" ==>
           r.value.fields[k] == user.fields[k]
  {
    var p :- WithObjectId(user, "_id");
    assert Prop(p, "currentOwnerId") == Prop(user, "currentOwnerId");
    WithObjectId(p, "currentOwnerId")
  }

  // ------------------------------------------------------------------ owners

  /** One membership entry with its `id` turned into an ObjectId. */
  function NormalizeOwner(entry: Json): (r: Result<Json, Error>)
    ensures r.Success? <==> entry.JObj? && ToObjectId(Prop(entry, "id")).Success?
    ensures r.Success? ==>
      && r.value.JObj?
      && r.value.fields.Keys == entry.fields.Keys + {"id"}
      && Prop(r.value, "id") == JId(ToObjectId(Prop(entry, "id")).value)
      && forall k :: k in entry.fields && k != "id" ==> r.value.fields[k] == entry.fields[k]
  {
    WithObjectId(entry, "id")
  }

  /** getOwners: the membership list of the profile, in order, every entry
      with an ObjectId id. The list must be an array (array_map). */
  function Owners(profile: Json): (r: Result<seq<Json>, Error>)
    ensures !Prop(profile, "owners").JArr? ==> r == Failure(TypeError)
    ensures r.Success? <==>
      Prop(profile, "owners").JArr? &&
      forall i :: 0 <= i < |Prop(profile, "owners").items| ==>
        NormalizeOwner(Prop(profile, "owners").items[i]).Success?
    ensures r.Success? ==>
      var entries := Prop(profile, "owners").items;
      && |r.value| == |entries|
      && forall i :: 0 <= i < |entries| ==> r.value[i] == NormalizeOwner(entries[i]).value
    ensures r.Success? ==> forall i :: 0 <= i < |r.value| ==> Prop(r.value[i], "id").JId?
    ensures r.Failure? && Prop(profile, "owners").JArr? ==>
      var entries := Prop(profile, "owners").items;
      exists k :: 0 <= k < |entries| && NormalizeOwner(entries[k]).Failure? &&
        r.error == NormalizeOwner(entries[k]).error &&
        forall j :: 0 <= j < k ==> NormalizeOwner(entries[j]).Success?
  {
    match Prop(profile, "owners")
    case JArr(entries) => MapAll(entries, NormalizeOwner)
    case _ => Failure(TypeError)
  }

  /** Whether a membership entry is for `id`: PHP's `==` between its `id`
      and the ObjectId. */
  predicate OwnerIs(entry: Json, id: ObjectId) {
    LooseIdEquals(Prop(entry, "id"), JId(id))
  }

  /** `id` is among the memberships. */
  predicate IsMember(owners: seq<Json>, id: ObjectId) {
    exists i :: 0 <= i < |owners| && OwnerIs(owners[i], id)
  }

  /** For a normalised entry and an id with a hex letter (so not a numeric
      string), PHP's `==` is exact id equality. */
  lemma OwnerIsExact(entry: Json, id: ObjectId, i: nat)
    requires Prop(entry, "id").JId?
    requires i < |id.oid| && 'a' <= id.oid[i] <= 'f'
    ensures OwnerIs(entry, id) <==> Prop(entry, "id") == JId(id)
  {
    HexLetterNotNumeric(id.oid, i);
    var other := Prop(entry, "id").id;
    assert other.oid == id.oid ==> other == id;
  }

  /** Normalising an entry twice changes nothing: an ObjectId converts to
      itself through its string. */
  lemma NormalizeOwnerIdempotent(entry: Json)
    requires NormalizeOwner(entry).Success?
    ensures NormalizeOwner(NormalizeOwner(entry).value) == NormalizeOwner(entry)
  {
    var e := NormalizeOwner(entry).value;
    var id := ToObjectId(Prop(entry, "id")).value;
    assert Prop(e, "id") == JId(id);
    assert ToObjectId(JId(id)) == Success(id);
    assert e.fields["id" := JId(id)] == e.fields;
  }

  /** The membership list after getOwners has converted its first `k`
      entries in place (the entries are objects, shared by handle). */
  function ConvertedPrefix(entries: seq<Json>, k: nat): (r: seq<Json>)
    requires k <= |entries| && forall i :: 0 <= i < k ==> NormalizeOwner(entries[i]).Success?
    ensures |r| == |entries| && r[k..] == entries[k..]
    ensures forall i :: 0 <= i < k ==> r[i] == NormalizeOwner(entries[i]).value
  {
    seq(k, i requires 0 <= i < k => NormalizeOwner(entries[i]).value) + entries[k..]
  }

  /** getOwners writes each converted entry back into the stored profile
      before it converts the next one, so whether it returns or throws at
      entry `k`, the profile then holds the first `k` entries converted.
      Reading the owners again from that profile gives the same result, the
      same list or the same error, so the write-back is not observable
      through the client's operations. */
  lemma OwnersWriteBack(profile: Json, k: nat)
    requires Prop(profile, "owners").JArr?
    requires k <= |Prop(profile, "owners").items|
    requires forall i :: 0 <= i < k ==> NormalizeOwner(Prop(profile, "owners").items[i]).Success?
    ensures profile.JObj?
    ensures Owners(JObj(profile.fields["owners" := JArr(ConvertedPrefix(Prop(profile, "owners").items, k))]))
            == Owners(profile)
  {
    var entries := Prop(profile, "owners").items;
    var converted := ConvertedPrefix(entries, k);
    ConvertedAlike(entries, k);
    MapAllPointwise(converted, entries, NormalizeOwner);
    assert Prop(JObj(profile.fields["owners" := JArr(converted)]), "owners") == JArr(converted);
  }

  /** Converted or not, each entry converts to the same thing. */
  lemma ConvertedAlike(entries: seq<Json>, k: nat)
    requires k <= |entries| && forall i :: 0 <= i < k ==> NormalizeOwner(entries[i]).Success?
    ensures forall i :: 0 <= i < |entries| ==>
      NormalizeOwner(ConvertedPrefix(entries, k)[i]) == NormalizeOwner(entries[i])
  {
    var converted := ConvertedPrefix(entries, k);
    forall i | 0 <= i < |entries|
      ensures NormalizeOwner(converted[i]) == NormalizeOwner(entries[i])
    {
      if i < k {
        NormalizeOwnerIdempotent(entries[i]);
      } else {
        assert converted[i] == converted[k..][i - k];
      }
    }
  }

  /** In particular, when getOwners returns, the rewritten profile gives
      back the very list it returned. */
  lemma OwnersWriteBackComplete(profile: Json)
    requires Owners(profile).Success?
    ensures profile.JObj?
    ensures Owners(JObj(profile.fields["owners" := JArr(Owners(profile).value)])) == Owners(profile)
  {
    var entries := Prop(profile, "owners").items;
    OwnersWriteBack(profile, |entries|);
    assert ConvertedPrefix(entries, |entries|) == Owners(profile).value;
  }

  /** `current(array_filter($owners, ...))`: the first entry whose id equals
      the current owner id, or none (PHP's false). */
  function FirstMatching(owners: seq<Json>, current: Json): (r: Option<nat>)
    ensures r.Some? ==>
      && r.value < |owners|
      && LooseEquals(Prop(owners[r.value], "id"), current)
      && forall j :: 0 <= j < r.value ==> !LooseEquals(Prop(owners[j], "id"), current)
    ensures r.None? ==> forall j :: 0 <= j < |owners| ==> !LooseEquals(Prop(owners[j], "id"), current)
  {
    if owners == [] then None
    else if LooseEquals(Prop(owners[0], "id"), current) then Some(0)
    else
      match FirstMatching(owners[1..], current)
      case None => None
      case Some(i) => Some(i + 1)
  }

  /** The current-owner view getOwner builds. */
  datatype OwnerView = OwnerView(id: Json, name: Json, iban: Json, mailbox: Json, role: Json)

  /** getOwner (after the login check): the current owner's id, name, iban and
      mailbox from the profile, and the role of the first matching membership
      entry; with no match PHP reads `->role` on false, which gives null. */
  function CurrentOwner(profile: Json): (r: Result<OwnerView, Error>)
    ensures r.Success? <==> Owners(profile).Success?
    ensures r.Success? ==>
      var cur := Prop(profile, "currentOwnerId");
      var first := FirstMatching(Owners(profile).value, cur);
      && r.value.id == cur
      && r.value.name == Prop(profile, "currentOwnerName")
      && r.value.iban == Prop(profile, "currentOwnerIban")
      && r.value.mailbox == Prop(profile, "currentOwnerMailbox")
      && r.value.role == (if first.Some? then Prop(Owners(profile).value[first.value], "role") else JNull)
  {
    var owners :- Owners(profile);
    var cur := Prop(profile, "currentOwnerId");
    var role := match FirstMatching(owners, cur)
      case Some(i) => Prop(owners[i], "role")
      case None => JNull;
    Success(OwnerView(cur, Prop(profile, "currentOwnerName"), Prop(profile, "currentOwnerIban"),
                      Prop(profile, "currentOwnerMailbox"), role))
  }

  // --------------------------------------------------------------- doctypes

  /** getDocumentTypes (after the request): the `id` of every entry of a list
      response, in order; any other response gives the empty list. */
  function DoctypeIds(response: Json): (r: seq<Json>)
    ensures !response.JArr? ==> r == []
    ensures response.JArr? ==>
      |r| == |response.items| &&
      forall i :: 0 <= i < |r| ==> r[i] == Prop(response.items[i], "id")
  {
    match response
    case JArr(entries) => seq(|entries|, i requires 0 <= i < |entries| => Prop(entries[i], "id"))
    case _ => []
  }

  // ---------------------------------------------------------- document list

  /** getDocumentList (after the request): one ObjectId per `data` entry, in
      order, when `data` is set and `total` is positive; otherwise none. */
  function DocumentIds(response: Json): (r: Result<seq<ObjectId>, Error>)
    ensures !(IsSet(response, "data") && IsPositive(Prop(response, "total"))) ==> r == Success([])
    ensures IsSet(response, "data") && IsPositive(Prop(response, "total")) ==>
      (r.Success? <==>
        (Prop(response, "data").JArr? &&
         forall i :: 0 <= i < |Prop(response, "data").items| ==>
           ToObjectId(Prop(response, "data").items[i]).Success?))
    ensures r.Success? && IsSet(response, "data") && IsPositive(Prop(response, "total")) ==>
      && Prop(response, "data").JArr?
      && |r.value| == |Prop(response, "data").items|
      && forall i :: 0 <= i < |r.value| ==>
           r.value[i] == ToObjectId(Prop(response, "data").items[i]).value
    ensures r.Failure? && !Prop(response, "data").JArr? ==> r.error == TypeError
    ensures r.Failure? && Prop(response, "data").JArr? ==>
      var ids := Prop(response, "data").items;
      exists k :: 0 <= k < |ids| && ToObjectId(ids[k]).Failure? && r.error == ToObjectId(ids[k]).error &&
        forall j :: 0 <= j < k ==> ToObjectId(ids[j]).Success?
  {
    if IsSet(response, "data") && IsPositive(Prop(response, "total")) then
      match Prop(response, "data")
      case JArr(ids) => MapAll(ids, ToObjectId)
      case _ => Failure(TypeError)
    else Success([])
  }

  // --------------------------------------------------------- document info

  /** The keys a page loses: internal-only data and the raw id. */
  const HiddenPageKeys: set<string> := {"_id", "vision", "type"}

  /** One page of a document: `fileId` is the ObjectId of `_id` when that is
      truthy (null otherwise); `_id`, `vision` and `type` are removed; every
      other key is untouched. A page that is not an object cannot take the
      new property. */
  function NormalizePage(page: Json): (r: Result<Json, Error>)
    ensures r.Success? <==>
      page.JObj? && (Truthy(Prop(page, "_id")) ==> ToObjectId(Prop(page, "_id")).Success?)
    ensures r.Success? ==>
      && r.value.JObj?
      && r.value.fields.Keys == page.fields.Keys - HiddenPageKeys + {"fileId"}
      && (forall k :: k in HiddenPageKeys ==> k !in r.value.fields)
      && Prop(r.value, "fileId") ==
           (if Truthy(Prop(page, "_id")) then JId(ToObjectId(Prop(page, "_id")).value) else JNull)
      && forall k :: k in page.fields && k !in HiddenPageKeys && k != "fileId" ==>
           r.value.fields[k] == page.fields[k]
  {
    if !page.JObj? then Failure(TypeError)
    else
      var fileId :- OptionalObjectId(Prop(page, "_id"));
      Success(JObj(page.fields[ "fileId" := fileId] - HiddenPageKeys))
  }

  /** One extracted field: `bboxes` is removed and, when `bounds` and its
      `id` are both non-empty, that id becomes an ObjectId. A value that is
      not an object passes through unchanged (unset and reads on it are
      no-ops). */
  function NormalizeField(field: Json): (r: Result<Json, Error>)
    ensures !field.JObj? ==> r == Success(field)
    ensures field.JObj? ==>
      var bounds := Prop(field, "bounds");
      var converts := Truthy(bounds) && Truthy(Prop(bounds, "id"));
      && (r.Success? <==> (converts ==> ToObjectId(Prop(bounds, "id")).Success?))
      && (r.Success? ==>
           && r.value.JObj?
           && r.value.fields.Keys == field.fields.Keys - {"bboxes"}
           && (forall k :: k in field.fields && k != "bboxes" && k != "bounds" ==>
                 r.value.fields[k] == field.fields[k])
           && (!converts && "bounds" in field.fields ==> r.value.fields["bounds"] == bounds)
           && (converts ==>
                 && bounds.JObj?
                 && Prop(r.value, "bounds") ==
                      JObj(bounds.fields["id" := JId(ToObjectId(Prop(bounds, "id")).value)])))
  {
    if !field.JObj? then Success(field)
    else
      var rest := field.fields - {"bboxes"};
      var bounds := Prop(field, "bounds");
      if Truthy(bounds) && Truthy(Prop(bounds, "id")) then
        var id :- ToObjectId(Prop(bounds, "id"));
        Success(JObj(rest["bounds" := JObj(bounds.fields["id" := JId(id)])]))
      else Success(JObj(rest))
  }

  /** `!empty($doc->fields) ? $doc->fields : []`, then array_map, which
      refuses anything but an array. */
  function NormalizeFields(fields: Json): (r: Result<seq<Json>, Error>)
    ensures !Truthy(fields) ==> r == Success([])
    ensures Truthy(fields) && !fields.JArr? ==> r == Failure(TypeError)
    ensures fields.JArr? && fields.items != [] ==>
      (r.Success? <==> forall i :: 0 <= i < |fields.items| ==> NormalizeField(fields.items[i]).Success?)
    ensures fields.JArr? && r.Success? ==>
      |r.value| == |fields.items| &&
      forall i :: 0 <= i < |r.value| ==> r.value[i] == NormalizeField(fields.items[i]).value
  {
    if !Truthy(fields) then Success([])
    else
      match fields
      case JArr(items) => MapAll(items, NormalizeField)
      case _ => Failure(TypeError)
  }

  /** The keys prepareDocumentInfo copies from the document unchanged. */
  const CopiedKeys: set<string> := {"step", "doctype", "name", "predicted", "updatedAt", "createdAt"}

  /** The keys of a prepared document. */
  const DocumentKeys: set<string> := {"id", "userId", "pages", "fields"} + CopiedKeys

  /** The object prepareDocumentInfo returns, from its converted parts. */
  function DocumentObject(doc: Json, id: ObjectId, userId: Json, pages: seq<Json>, fields: seq<Json>): (r: Json)
    ensures r.JObj? && r.fields.Keys == DocumentKeys
    ensures Prop(r, "id") == JId(id) && Prop(r, "userId") == userId
    ensures Prop(r, "pages") == JArr(pages) && Prop(r, "fields") == JArr(fields)
    ensures forall k :: k in CopiedKeys ==> Prop(r, k) == Prop(doc, k)
  {
    var converted := map["id" := JId(id), "userId" := userId, "pages" := JArr(pages), "fields" := JArr(fields)];
    var copied := map k | k in CopiedKeys :: Prop(doc, k);
    assert converted.Keys !! copied.Keys;
    JObj(converted + copied)
  }

  /** `$doc->userId ? new ObjectId($doc->userId) : null`, and likewise for a page's `_id`. */
  function OptionalObjectId(v: Json): (r: Result<Json, Error>)
    ensures r.Success? <==> (Truthy(v) ==> ToObjectId(v).Success?)
    ensures r.Success? ==> r.value == if Truthy(v) then JId(ToObjectId(v).value) else JNull
  {
    if Truthy(v) then
      var id :- ToObjectId(v); Success(JId(id))
    else Success(JNull)
  }

  /** prepareDocumentInfo: the document as the client returns it. */
  function PrepareDocumentInfo(doc: Json): (r: Result<Json, Error>)
    ensures !doc.JObj? ==> r == Failure(TypeError)
    ensures doc.JObj? ==>
      (r.Success? <==>
        && ToObjectId(Prop(doc, "_id")).Success?
        && OptionalObjectId(Prop(doc, "userId")).Success?
        && Prop(doc, "pages").JArr?
        && MapAll(Prop(doc, "pages").items, NormalizePage).Success?
        && NormalizeFields(Prop(doc, "fields")).Success?)
    ensures r.Success? ==>
      && r.value.JObj? && r.value.fields.Keys == DocumentKeys
      && Prop(r.value, "id") == JId(ToObjectId(Prop(doc, "_id")).value)
      && Prop(r.value, "userId") == OptionalObjectId(Prop(doc, "userId")).value
      && (forall k :: k in CopiedKeys ==> Prop(r.value, k) == Prop(doc, k))
      && Prop(doc, "pages").JArr?
      && Prop(r.value, "pages") == JArr(MapAll(Prop(doc, "pages").items, NormalizePage).value)
      && Prop(r.value, "fields") == JArr(NormalizeFields(Prop(doc, "fields")).value)
  {
    if !doc.JObj? then Failure(TypeError)
    else
      var id :- ToObjectId(Prop(doc, "_id"));
      var userId :- OptionalObjectId(Prop(doc, "userId"));
      var pages :- match Prop(doc, "pages")
                   case JArr(ps) => MapAll(ps, NormalizePage)
                   case _ => Failure(TypeError);
      var fields :- NormalizeFields(Prop(doc, "fields"));
      Success(DocumentObject(doc, id, userId, pages, fields))
  }

  /** The shape of a prepared document: one page per page of the document,
      in order, none keeping `_id`, `vision` or `type` and each with a
      `fileId`; one field per field, no object field keeping `bboxes`;
      missing or empty fields become the empty list. */
  lemma PreparedDocumentShape(doc: Json)
    requires PrepareDocumentInfo(doc).Success?
    ensures var r := PrepareDocumentInfo(doc).value;
      && Prop(doc, "pages").JArr?
      && Prop(r, "pages").JArr?
      && |Prop(r, "pages").items| == |Prop(doc, "pages").items|
      && (forall i :: 0 <= i < |Prop(r, "pages").items| ==>
            var page := Prop(r, "pages").items[i];
            && page.JObj?
            && "fileId" in page.fields
            && (forall k :: k in HiddenPageKeys ==> k !in page.fields)
            && (forall k :: k in Prop(doc, "pages").items[i].fields && k !in HiddenPageKeys && k != "fileId" ==>
                  page.fields[k] == Prop(doc, "pages").items[i].fields[k]))
      && Prop(r, "fields").JArr?
      && (!Truthy(Prop(doc, "fields")) ==> Prop(r, "fields").items == [])
      && (forall i :: 0 <= i < |Prop(r, "fields").items| ==>
            Prop(r, "fields").items[i].JObj? ==> "bboxes" !in Prop(r, "fields").items[i].fields)
  {
    var r := PrepareDocumentInfo(doc).value;
    var pages := Prop(doc, "pages").items;
    var normalized := MapAll(pages, NormalizePage).value;
    assert Prop(r, "pages").items == normalized;
    var fields := NormalizeFields(Prop(doc, "fields")).value;
    assert Prop(r, "fields").items == fields;
    forall i | 0 <= i < |fields| && fields[i].JObj?
      ensures "bboxes" !in fields[i].fields
    {
      var items := Prop(doc, "fields").items;
      assert fields[i] == NormalizeField(items[i]).value;
    }
  }
}
