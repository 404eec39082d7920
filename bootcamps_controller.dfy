/** controllers/bootcamps.js. Each handler is stated twice: as a function from the
    stored bootcamps (and the request) to the reply and the bootcamps afterwards, which
    the properties below are proved about, and as a method on the store that makes the
    handler's own steps and is proved to agree with the function. The schema's
    validators (models/Bootcamps.js is not part of this model) are a parameter, as is
    the id the store gives a new document. */
module BootcampsController {
  import opened Wrappers
  import opened Strings
  import opened Documents
  import opened ErrorResponses
  import opened Http
  import opened Store
  import opened UserModel
  import AdvancedResults

  const NotFound: string := "Bootcamp not found with provided id"
  const AlreadyExists: string := "A bootcamp already exists with this user id"
  const PermissionDenied: string := "Permission denied."
  const NoFile: string := "Please upload a file."
  const NotAnImage: string := "Please upload a image file."
  const TooLarge: string := "Please upload a image of size less than 100000."
  const MaxPhotoSize: int := 1000000
  const UploadFailed: string := "Problem with file upload"

  /** The verdict of the schema's validators on a body: the error they raise, if any. */
  type Schema = Body -> Option<ErrorObject>

  datatype Outcome = Outcome(reply: Reply, bootcamps: map<Id, Bootcamp>)

  /** An uploaded file as the upload middleware describes it. */
  datatype UploadedFile = UploadedFile(name: string, mimetype: string, size: int)

  function DataReply(status: int, d: Json): Reply {
    Succeed(status, [("data", d)])
  }

  // ---------------------------------------------------------------------------
  // The file extension.

  /** The position of the last `c` in `s`. */
  function LastIndexOf(s: string, c: char): (r: Option<nat>)
    ensures r.Some? ==> r.value < |s| && s[r.value] == c && c !in s[r.value + 1..]
    ensures r.None? ==> c !in s
  {
    if |s| == 0 then None
    else if s[|s| - 1] == c then Some(|s| - 1)
    else
      var r := LastIndexOf(s[..|s| - 1], c);
      assert s == s[..|s| - 1] + [s[|s| - 1]];
      r
  }

  /** `path.parse(name).ext` of a file name: from the last `.` to the end, or nothing
      when there is no `.` after the first character. */
  function Extension(name: string): (e: string)
    ensures e == "" || (e[0] == '.' && |e| < |name| && name == name[..|name| - |e|] + e && '.' !in e[1..])
    ensures e == "" ==> |name| == 0 || '.' !in name[1..]
  {
    var dot := LastIndexOf(name, '.');
    if dot.None? || dot.value == 0 then ""
    else
      assert name == name[..dot.value] + name[dot.value..];
      assert name[dot.value..][1..] == name[dot.value + 1..];
      name[dot.value..]
  }

  /** The stored name of a bootcamp's photo. */
  function PhotoName(id: Id, original: string): string {
    "photo_" + id + Extension(original)
  }

  // ---------------------------------------------------------------------------
  // The handlers as functions.

  /** `getBootcamps` answers with what the list middleware prepared, as it is. */
  function GetBootcamps(env: AdvancedResults.Envelope<Doc>): (r: Reply)
    ensures r.Respond? && r.status == 200 && r.body == EnvelopeJson(env) && r.cookies == []
  {
    Respond(200, EnvelopeJson(env), [])
  }

  function GetBootcamp(bootcamps: map<Id, Bootcamp>, id: Id): (r: Reply)
    ensures !IsObjectId(id) ==> r == Forward(CastError(id))
    ensures IsObjectId(id) && id !in bootcamps ==> r == Fail(NotFound, 404)
    ensures IsObjectId(id) && id in bootcamps ==> r == DataReply(200, JDoc(BootcampDoc(bootcamps[id])))
  {
    var found := FindBootcamp(bootcamps, id);
    if found.Failure? then Forward(found.error)
    else if found.value.None? then Fail(NotFound, 404)
    else DataReply(200, JDoc(BootcampDoc(found.value.value)))
  }

  function CreateBootcampOutcome(
      bootcamps: map<Id, Bootcamp>, body: Body, requester: User, newId: Id, schema: Schema)
    : (o: Outcome)
    requires KeyedById(bootcamps)
    ensures KeyedById(o.bootcamps)
    ensures OwnsBootcamp(bootcamps, requester.id) && requester.role != "admin"
      ==> o == Outcome(Fail(AlreadyExists, 400), bootcamps)
    ensures (!OwnsBootcamp(bootcamps, requester.id) || requester.role == "admin")
      && schema(body["user" := requester.id]).Some?
      ==> o == Outcome(Forward(schema(body["user" := requester.id]).value), bootcamps)
    ensures (!OwnsBootcamp(bootcamps, requester.id) || requester.role == "admin")
      && schema(body["user" := requester.id]).None? && newId in bootcamps
      ==> o == Outcome(Forward(DuplicateKeyError()), bootcamps)
    ensures o.reply.Respond? <==>
      && (!OwnsBootcamp(bootcamps, requester.id) || requester.role == "admin")
      && schema(body["user" := requester.id]).None?
      && newId !in bootcamps
    ensures !o.reply.Respond? ==> o.bootcamps == bootcamps
    ensures o.reply.Respond? ==>
      && o.bootcamps == bootcamps[newId := NewBootcamp(newId, body["user" := requester.id], requester.id)]
      && o.reply == DataReply(201, JDoc(BootcampDoc(o.bootcamps[newId])))
      && o.bootcamps[newId].user == requester.id
  {
    var body := body["user" := requester.id];
    if OwnsBootcamp(bootcamps, requester.id) && requester.role != "admin" then
      Outcome(Fail(AlreadyExists, 400), bootcamps)
    else if schema(body).Some? then Outcome(Forward(schema(body).value), bootcamps)
    else if newId in bootcamps then Outcome(Forward(DuplicateKeyError()), bootcamps)
    else
      var b := NewBootcamp(newId, body, requester.id);
      Outcome(DataReply(201, JDoc(BootcampDoc(b))), bootcamps[newId := b])
  }

  /** `updateBootcamp` as written: `lookedUp` is what `findOne({ id })` returned,
      and the ownership check is made on it, while the update goes to the bootcamp
      with the requested id. */
  function UpdateBootcampOutcome(
      bootcamps: map<Id, Bootcamp>, id: Id, lookedUp: Option<Bootcamp>, body: Body,
      requester: User, schema: Schema)
    : (o: Outcome)
    requires KeyedById(bootcamps)
    ensures KeyedById(o.bootcamps)
    ensures lookedUp.None? ==> o == Outcome(Fail(NotFound, 404), bootcamps)
    ensures lookedUp.Some? && !MayModify(lookedUp.value.user, requester)
      ==> o == Outcome(Fail(PermissionDenied, 403), bootcamps)
    ensures o.bootcamps == bootcamps
      || (id in bootcamps && o.bootcamps == bootcamps[id := MergeBootcamp(bootcamps[id], body)])
    ensures o.bootcamps != bootcamps ==>
      && lookedUp.Some? && MayModify(lookedUp.value.user, requester)
      && id in bootcamps && IsObjectId(id) && schema(body).None?
      && o.reply == DataReply(201, JDoc(BootcampDoc(o.bootcamps[id])))
    ensures lookedUp.Some? && MayModify(lookedUp.value.user, requester) && !IsObjectId(id)
      ==> o == Outcome(Forward(CastError(id)), bootcamps)
    ensures lookedUp.Some? && MayModify(lookedUp.value.user, requester) && IsObjectId(id) && schema(body).Some?
      ==> o == Outcome(Forward(schema(body).value), bootcamps)
    ensures lookedUp.Some? && MayModify(lookedUp.value.user, requester) && IsObjectId(id) && schema(body).None?
      && id !in bootcamps
      ==> o == Outcome(DataReply(201, JNull), bootcamps)
    ensures lookedUp.Some? && MayModify(lookedUp.value.user, requester) && IsObjectId(id) && schema(body).None?
      && id in bootcamps
      ==> o == Outcome(DataReply(201, JDoc(BootcampDoc(MergeBootcamp(bootcamps[id], body)))),
                       bootcamps[id := MergeBootcamp(bootcamps[id], body)])
  {
    if lookedUp.None? then Outcome(Fail(NotFound, 404), bootcamps)
    else if !MayModify(lookedUp.value.user, requester) then Outcome(Fail(PermissionDenied, 403), bootcamps)
    else
      var found := FindBootcamp(bootcamps, id);
      if found.Failure? then Outcome(Forward(found.error), bootcamps)
      else if schema(body).Some? then Outcome(Forward(schema(body).value), bootcamps)
      else if found.value.None? then Outcome(DataReply(201, JNull), bootcamps)
      else
        var b := MergeBootcamp(found.value.value, body);
        Outcome(DataReply(201, JDoc(BootcampDoc(b))), bootcamps[id := b])
  }

  /** `updateBootcamp` with the lookup by id that the other handlers make. */
  function UpdateBootcampByIdOutcome(
      bootcamps: map<Id, Bootcamp>, id: Id, body: Body, requester: User, schema: Schema)
    : (o: Outcome)
    requires KeyedById(bootcamps)
    ensures KeyedById(o.bootcamps)
    ensures !IsObjectId(id) ==> o == Outcome(Forward(CastError(id)), bootcamps)
    ensures IsObjectId(id) && id !in bootcamps ==> o == Outcome(Fail(NotFound, 404), bootcamps)
    ensures IsObjectId(id) && id in bootcamps && !MayModify(bootcamps[id].user, requester)
      ==> o == Outcome(Fail(PermissionDenied, 403), bootcamps)
    ensures IsObjectId(id) && id in bootcamps && MayModify(bootcamps[id].user, requester) && schema(body).Some?
      ==> o == Outcome(Forward(schema(body).value), bootcamps)
    ensures o.reply.Respond? <==>
      IsObjectId(id) && id in bootcamps && MayModify(bootcamps[id].user, requester) && schema(body).None?
    ensures !o.reply.Respond? ==> o.bootcamps == bootcamps
    ensures o.reply.Respond? ==>
      && o.bootcamps == bootcamps[id := MergeBootcamp(bootcamps[id], body)]
      && o.reply == DataReply(201, JDoc(BootcampDoc(o.bootcamps[id])))
  {
    var found := FindBootcamp(bootcamps, id);
    if found.Failure? then Outcome(Forward(found.error), bootcamps)
    else if found.value.None? then Outcome(Fail(NotFound, 404), bootcamps)
    else if !MayModify(found.value.value.user, requester) then Outcome(Fail(PermissionDenied, 403), bootcamps)
    else if schema(body).Some? then Outcome(Forward(schema(body).value), bootcamps)
    else
      var b := MergeBootcamp(found.value.value, body);
      Outcome(DataReply(201, JDoc(BootcampDoc(b))), bootcamps[id := b])
  }

  function DeleteBootcampOutcome(bootcamps: map<Id, Bootcamp>, id: Id, requester: User): (o: Outcome)
    requires KeyedById(bootcamps)
    ensures KeyedById(o.bootcamps)
    ensures !IsObjectId(id) ==> o == Outcome(Forward(CastError(id)), bootcamps)
    ensures IsObjectId(id) && id !in bootcamps ==> o == Outcome(Fail(NotFound, 404), bootcamps)
    ensures IsObjectId(id) && id in bootcamps && !MayModify(bootcamps[id].user, requester)
      ==> o == Outcome(Fail(PermissionDenied, 403), bootcamps)
    ensures IsObjectId(id) && id in bootcamps && MayModify(bootcamps[id].user, requester) ==>
      && o.reply == DataReply(201, JObj([]))
      && id !in o.bootcamps
      && (forall k :: k != id ==> (k in o.bootcamps <==> k in bootcamps))
      && (forall k :: k in o.bootcamps ==> o.bootcamps[k] == bootcamps[k])
  {
    var found := FindBootcamp(bootcamps, id);
    if found.Failure? then Outcome(Forward(found.error), bootcamps)
    else if found.value.None? then Outcome(Fail(NotFound, 404), bootcamps)
    else if !MayModify(found.value.value.user, requester) then Outcome(Fail(PermissionDenied, 403), bootcamps)
    else Outcome(DataReply(201, JObj([])), bootcamps - {id})
  }

  /** `bootcampPhotoUpload`. `files` is `req.files` by field name; `moved` says
      whether moving the file into the uploads directory succeeded. */
  function PhotoUploadOutcome(
      bootcamps: map<Id, Bootcamp>, id: Id, requester: User,
      files: Option<map<string, UploadedFile>>, moved: bool)
    : (o: Outcome)
    requires KeyedById(bootcamps)
    ensures KeyedById(o.bootcamps)
    ensures !IsObjectId(id) ==> o == Outcome(Forward(CastError(id)), bootcamps)
    ensures IsObjectId(id) && id !in bootcamps ==> o == Outcome(Fail(NotFound, 404), bootcamps)
    ensures IsObjectId(id) && id in bootcamps && !MayModify(bootcamps[id].user, requester)
      ==> o == Outcome(Fail(PermissionDenied, 403), bootcamps)
    ensures IsObjectId(id) && id in bootcamps && MayModify(bootcamps[id].user, requester) ==>
      && (files.None? ==> o == Outcome(Fail(NoFile, 400), bootcamps))
      && (files.Some? && "file" !in files.value ==> o.reply.Forward? && o.reply.err.name == "TypeError")
      && (files.Some? && "file" in files.value ==>
           var f := files.value["file"];
           && (!StartsWith(f.mimetype, "image/") ==> o == Outcome(Fail(NotAnImage, 400), bootcamps))
           && (StartsWith(f.mimetype, "image/") && f.size > MaxPhotoSize ==> o == Outcome(Fail(TooLarge, 400), bootcamps))
           && (StartsWith(f.mimetype, "image/") && f.size <= MaxPhotoSize && !moved ==>
                 o == Outcome(Fail(UploadFailed, 500), bootcamps))
           && (StartsWith(f.mimetype, "image/") && f.size <= MaxPhotoSize && moved ==>
                 && o.reply == DataReply(202, JStr(PhotoName(id, f.name)))
                 && o.bootcamps == bootcamps[id := bootcamps[id].(photo := Some(PhotoName(id, f.name)))]))
    ensures o.bootcamps != bootcamps ==> o.reply.Respond? && o.reply.status == 202
  {
    var found := FindBootcamp(bootcamps, id);
    if found.Failure? then Outcome(Forward(found.error), bootcamps)
    else if found.value.None? then Outcome(Fail(NotFound, 404), bootcamps)
    else
      var bootcamp := found.value.value;
      if !MayModify(bootcamp.user, requester) then Outcome(Fail(PermissionDenied, 403), bootcamps)
      else if files.None? then Outcome(Fail(NoFile, 400), bootcamps)
      else if "file" !in files.value then Outcome(Forward(TypeError("mimetype", true)), bootcamps)
      else
        var file := files.value["file"];
        if !StartsWith(file.mimetype, "image/") then Outcome(Fail(NotAnImage, 400), bootcamps)
        else if file.size > MaxPhotoSize then Outcome(Fail(TooLarge, 400), bootcamps)
        else if !moved then Outcome(Fail(UploadFailed, 500), bootcamps)
        else
          var name := PhotoName(bootcamp.id, file.name);
          Outcome(DataReply(202, JStr(name)), bootcamps[id := bootcamp.(photo := Some(name))])
  }

  // ---------------------------------------------------------------------------
  // The handlers on the store.

  method CreateBootcamp(store: Store, body: Body, requester: User, newId: Id, schema: Schema)
    returns (reply: Reply)
    requires store.Valid()
    modifies store
    ensures store.Valid()
    ensures Outcome(reply, store.bootcamps) == CreateBootcampOutcome(old(store.bootcamps), body, requester, newId, schema)
    ensures store.courses == old(store.courses) && store.users == old(store.users)
  {
    var body := body["user" := requester.id];
    var published := OwnsBootcamp(store.bootcamps, requester.id);
    if published && requester.role != "admin" {
      return Fail(AlreadyExists, 400);
    }
    var invalid := schema(body);
    if invalid.Some? {
      return Forward(invalid.value);
    }
    if newId in store.bootcamps {
      return Forward(DuplicateKeyError());
    }
    var bootcamp := NewBootcamp(newId, body, requester.id);
    store.bootcamps := store.bootcamps[newId := bootcamp];
    reply := DataReply(201, JDoc(BootcampDoc(bootcamp)));
  }

  method UpdateBootcamp(
      store: Store, id: Id, lookedUp: Option<Bootcamp>, body: Body, requester: User, schema: Schema)
    returns (reply: Reply)
    requires store.Valid()
    modifies store
    ensures store.Valid()
    ensures Outcome(reply, store.bootcamps)
      == UpdateBootcampOutcome(old(store.bootcamps), id, lookedUp, body, requester, schema)
    ensures store.courses == old(store.courses) && store.users == old(store.users)
  {
    var bootcamp := lookedUp;
    if bootcamp.None? {
      return Fail(NotFound, 404);
    }
    if bootcamp.value.user != requester.id && requester.role != "admin" {
      return Fail(PermissionDenied, 403);
    }
    var found := FindBootcamp(store.bootcamps, id);
    if found.Failure? {
      return Forward(found.error);
    }
    var invalid := schema(body);
    if invalid.Some? {
      return Forward(invalid.value);
    }
    if found.value.None? {
      return DataReply(201, JNull);
    }
    bootcamp := Some(MergeBootcamp(found.value.value, body));
    store.bootcamps := store.bootcamps[id := bootcamp.value];
    reply := DataReply(201, JDoc(BootcampDoc(bootcamp.value)));
  }

  method DeleteBootcamp(store: Store, id: Id, requester: User) returns (reply: Reply)
    requires store.Valid()
    modifies store
    ensures store.Valid()
    ensures Outcome(reply, store.bootcamps) == DeleteBootcampOutcome(old(store.bootcamps), id, requester)
    ensures store.courses == old(store.courses) && store.users == old(store.users)
  {
    var found := FindBootcamp(store.bootcamps, id);
    if found.Failure? {
      return Forward(found.error);
    }
    if found.value.None? {
      return Fail(NotFound, 404);
    }
    var bootcamp := found.value.value;
    if bootcamp.user != requester.id && requester.role != "admin" {
      return Fail(PermissionDenied, 403);
    }
    store.bootcamps := store.bootcamps - {id};
    reply := DataReply(201, JObj([]));
  }

  method BootcampPhotoUpload(
      store: Store, id: Id, requester: User, files: Option<map<string, UploadedFile>>, moved: bool)
    returns (reply: Reply)
    requires store.Valid()
    modifies store
    ensures store.Valid()
    ensures Outcome(reply, store.bootcamps) == PhotoUploadOutcome(old(store.bootcamps), id, requester, files, moved)
    ensures store.courses == old(store.courses) && store.users == old(store.users)
  {
    var found := FindBootcamp(store.bootcamps, id);
    if found.Failure? {
      return Forward(found.error);
    }
    if found.value.None? {
      return Fail(NotFound, 404);
    }
    var bootcamp := found.value.value;
    if bootcamp.user != requester.id && requester.role != "admin" {
      return Fail(PermissionDenied, 403);
    }
    if files.None? {
      return Fail(NoFile, 400);
    }
    if "file" !in files.value {
      return Forward(TypeError("mimetype", true));
    }
    var file := files.value["file"];
    if !StartsWith(file.mimetype, "image/") {
      return Fail(NotAnImage, 400);
    }
    if file.size > 1000000 {
      return Fail(TooLarge, 400);
    }
    file := file.(name := "photo_" + bootcamp.id + Extension(file.name));
    if !moved {
      return Fail(UploadFailed, 500);
    }
    store.bootcamps := store.bootcamps[id := bootcamp.(photo := Some(file.name))];
    reply := DataReply(202, JStr(file.name));
  }

  // ---------------------------------------------------------------------------
  // Properties.

  /** A publisher owns at most one bootcamp: once a create by a non-admin has
      succeeded, every later create by the same requester is refused with 400. */
  lemma OneBootcampPerPublisher(
      bootcamps: map<Id, Bootcamp>, body: Body, requester: User, newId: Id, schema: Schema,
      body2: Body, newId2: Id)
    requires KeyedById(bootcamps) && requester.role != "admin"
    requires CreateBootcampOutcome(bootcamps, body, requester, newId, schema).reply.Respond?
    ensures var after := CreateBootcampOutcome(bootcamps, body, requester, newId, schema).bootcamps;
      CreateBootcampOutcome(after, body2, requester, newId2, schema) == Outcome(Fail(AlreadyExists, 400), after)
  {
    var after := CreateBootcampOutcome(bootcamps, body, requester, newId, schema).bootcamps;
    assert newId in after && after[newId].user == requester.id;
    assert OwnsBootcamp(after, requester.id);
  }

  /** An admin is never refused for owning bootcamps already. */
  lemma AdminMayAlwaysCreate(
      bootcamps: map<Id, Bootcamp>, body: Body, requester: User, newId: Id, schema: Schema)
    requires KeyedById(bootcamps) && requester.role == "admin"
    requires schema(body["user" := requester.id]).None? && newId !in bootcamps
    ensures CreateBootcampOutcome(bootcamps, body, requester, newId, schema).reply.status == 201
  {
  }

  /** In the handlers that look up by id, only the owner or an admin ever changes the
      stored bootcamps. */
  lemma OnlyOwnerOrAdminWrites(
      bootcamps: map<Id, Bootcamp>, id: Id, body: Body, requester: User, schema: Schema,
      files: Option<map<string, UploadedFile>>, moved: bool)
    requires KeyedById(bootcamps)
    requires id in bootcamps && !MayModify(bootcamps[id].user, requester)
    ensures UpdateBootcampByIdOutcome(bootcamps, id, body, requester, schema).bootcamps == bootcamps
    ensures DeleteBootcampOutcome(bootcamps, id, requester).bootcamps == bootcamps
    ensures PhotoUploadOutcome(bootcamps, id, requester, files, moved).bootcamps == bootcamps
  {
  }

  /** As written, the ownership check of `updateBootcamp` can pass on one bootcamp
      while another is updated: whoever may modify the document the lookup returned
      updates any stored bootcamp. The lookup by id refuses the same request. */
  lemma UpdateChecksAnotherBootcamp(
      bootcamps: map<Id, Bootcamp>, id: Id, other: Bootcamp, body: Body, requester: User, schema: Schema)
    requires KeyedById(bootcamps)
    requires IsObjectId(id) && id in bootcamps && schema(body).None?
    requires MayModify(other.user, requester) && !MayModify(bootcamps[id].user, requester)
    ensures UpdateBootcampOutcome(bootcamps, id, Some(other), body, requester, schema).bootcamps
      == bootcamps[id := MergeBootcamp(bootcamps[id], body)]
    ensures UpdateBootcampByIdOutcome(bootcamps, id, body, requester, schema)
      == Outcome(Fail(PermissionDenied, 403), bootcamps)
  {
  }

  /** The size limit is inclusive: a file of exactly 1000000 bytes is accepted. */
  lemma PhotoSizeBoundary(
      bootcamps: map<Id, Bootcamp>, id: Id, requester: User, f: UploadedFile)
    requires KeyedById(bootcamps)
    requires IsObjectId(id) && id in bootcamps && MayModify(bootcamps[id].user, requester)
    requires StartsWith(f.mimetype, "image/") && f.size == 1000000
    ensures PhotoUploadOutcome(bootcamps, id, requester, Some(map["file" := f]), true).reply
      == DataReply(202, JStr(PhotoName(id, f.name)))
    ensures PhotoUploadOutcome(bootcamps, id, requester, Some(map["file" := f.(size := 1000001)]), true).reply
      == Fail(TooLarge, 400)
  {
  }

  lemma {:induction false} LastIndexAfter(a: string, b: string, c: char)
    requires c !in b
    ensures LastIndexOf(a + [c] + b, c) == Some(|a|)
    decreases |b|
  {
    var s := a + [c] + b;
    if |b| > 0 {
      assert s[..|s| - 1] == a + [c] + b[..|b| - 1];
      LastIndexAfter(a, b[..|b| - 1], c);
    }
  }

  /** The photo name keeps the extension of the uploaded file: the text after its
      last `.`, dot included; a name whose only `.` is its first character has none. */
  lemma PhotoNameExtension(id: Id, base: string, ext: string)
    requires |base| > 0 && '.' !in ext
    ensures Extension(base + "." + ext) == "." + ext
    ensures Extension("." + ext) == ""
    ensures PhotoName(id, base + "." + ext) == "photo_" + id + "." + ext
  {
    LastIndexAfter(base, ext, '.');
    var name := base + "." + ext;
    assert name[|base|..] == "." + ext;
    LastIndexAfter("", ext, '.');
    assert "" + ['.'] + ext == "." + ext;
  }
}
