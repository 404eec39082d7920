/** controllers/courses.js, in the same two forms as the bootcamp handlers: functions
    from the stored courses (and bootcamps) to the reply and the courses afterwards,
    and methods on the store that agree with them. The course schema's validators are
    a parameter. */
module CoursesController {
  import opened Wrappers
  import opened Documents
  import opened ErrorResponses
  import opened Http
  import opened Store
  import opened UserModel
  import AdvancedResults

  const CourseNotFound: string := "No course exists with provided id."
  const BootcampNotFound: string := "No bootcamp exists with provided id."
  const PermissionDenied: string := "Permission Denied"

  type Schema = Body -> Option<ErrorObject>

  datatype Outcome = Outcome(reply: Reply, courses: seq<Course>)

  function DataReply(status: int, d: Json): Reply {
    Succeed(status, [("data", d)])
  }

  function CourseDocs(cs: seq<Course>): (j: seq<Json>)
    ensures |j| == |cs|
    ensures forall k :: 0 <= k < |cs| ==> j[k] == JDoc(CourseDoc(cs[k]))
  {
    seq(|cs|, k requires 0 <= k < |cs| => JDoc(CourseDoc(cs[k])))
  }

  /** `getCourses`. Under a bootcamp the courses are read directly, and the reply
      counts them under the key `coount`; otherwise the list middleware's result is
      sent as it is. */
  function GetCourses(courses: seq<Course>, bootcampId: Option<Id>, env: AdvancedResults.Envelope<Doc>): (r: Reply)
    ensures bootcampId.None? || bootcampId.value == "" ==> r == Respond(200, EnvelopeJson(env), [])
    ensures bootcampId.Some? && bootcampId.value != "" && !IsObjectId(bootcampId.value)
      ==> r == Forward(CastError(bootcampId.value))
    ensures bootcampId.Some? && IsObjectId(bootcampId.value) ==>
      var cs := CoursesOf(courses, bootcampId.value);
      r == Succeed(200, [("coount", JNum(|cs|)), ("data", JArr(CourseDocs(cs)))])
      && (forall k :: 0 <= k < |cs| ==> cs[k].bootcamp == bootcampId.value)
  {
    if bootcampId.Some? && bootcampId.value != "" then
      if !IsObjectId(bootcampId.value) then Forward(CastError(bootcampId.value))
      else
        var cs := CoursesOf(courses, bootcampId.value);
        Succeed(200, [("coount", JNum(|cs|)), ("data", JArr(CourseDocs(cs)))])
    else Respond(200, EnvelopeJson(env), [])
  }

  function GetCourse(courses: seq<Course>, id: Id): (r: Reply)
    ensures !IsObjectId(id) ==> r == Forward(CastError(id))
    ensures IsObjectId(id) && CourseIndex(courses, id).None? ==> r == Fail(CourseNotFound, 404)
    ensures IsObjectId(id) && CourseIndex(courses, id).Some? ==>
      r == DataReply(200, JDoc(CourseDoc(courses[CourseIndex(courses, id).value])))
  {
    var found := FindCourse(courses, id);
    if found.Failure? then Forward(found.error)
    else if found.value.None? then Fail(CourseNotFound, 404)
    else DataReply(200, JDoc(CourseDoc(courses[found.value.value])))
  }

  /** `addCourse`. The bootcamp comes from the body's `bootcamp`, not from the route
      (`routeBootcampId` is overwritten before use); an absent one finds nothing. */
  function AddCourseOutcome(
      bootcamps: map<Id, Bootcamp>, courses: seq<Course>, routeBootcampId: Option<Id>,
      body: Body, requester: User, newId: Id, schema: Schema)
    : (o: Outcome)
    ensures "bootcamp" !in body ==> o == Outcome(Fail(BootcampNotFound, 404), courses)
    ensures "bootcamp" in body && !IsObjectId(body["bootcamp"]) ==> o == Outcome(Forward(CastError(body["bootcamp"])), courses)
    ensures "bootcamp" in body && IsObjectId(body["bootcamp"]) && body["bootcamp"] !in bootcamps
      ==> o == Outcome(Fail(BootcampNotFound, 404), courses)
    ensures "bootcamp" in body && IsObjectId(body["bootcamp"]) && body["bootcamp"] in bootcamps
      && !MayModify(bootcamps[body["bootcamp"]].user, requester)
      ==> o == Outcome(Fail(PermissionDenied, 403), courses)
    ensures "bootcamp" in body && IsObjectId(body["bootcamp"]) && body["bootcamp"] in bootcamps
      && MayModify(bootcamps[body["bootcamp"]].user, requester) && schema(body["user" := requester.id]).Some?
      ==> o == Outcome(Forward(schema(body["user" := requester.id]).value), courses)
    ensures "bootcamp" in body && IsObjectId(body["bootcamp"]) && body["bootcamp"] in bootcamps
      && MayModify(bootcamps[body["bootcamp"]].user, requester) && schema(body["user" := requester.id]).None?
      && CourseIndex(courses, newId).Some?
      ==> o == Outcome(Forward(DuplicateKeyError()), courses)
    ensures o.reply.Respond? <==>
      && "bootcamp" in body && IsObjectId(body["bootcamp"]) && body["bootcamp"] in bootcamps
      && MayModify(bootcamps[body["bootcamp"]].user, requester)
      && schema(body["user" := requester.id]).None? && CourseIndex(courses, newId).None?
    ensures !o.reply.Respond? ==> o.courses == courses
    ensures o.reply.Respond? ==>
      && o.courses == courses + [NewCourse(newId, body["user" := requester.id], body["bootcamp"], requester.id)]
      && o.reply == DataReply(202, JDoc(CourseDoc(o.courses[|courses|])))
  {
    var bootcampId := if "bootcamp" in body then Some(body["bootcamp"]) else None;
    var body := body["user" := requester.id];
    if bootcampId.None? then Outcome(Fail(BootcampNotFound, 404), courses)
    else
      var found := FindBootcamp(bootcamps, bootcampId.value);
      if found.Failure? then Outcome(Forward(found.error), courses)
      else if found.value.None? then Outcome(Fail(BootcampNotFound, 404), courses)
      else if !MayModify(found.value.value.user, requester) then Outcome(Fail(PermissionDenied, 403), courses)
      else if schema(body).Some? then Outcome(Forward(schema(body).value), courses)
      else if CourseIndex(courses, newId).Some? then Outcome(Forward(DuplicateKeyError()), courses)
      else
        var c := NewCourse(newId, body, bootcampId.value, requester.id);
        Outcome(DataReply(202, JDoc(CourseDoc(c))), courses + [c])
  }

  function UpdateCourseOutcome(courses: seq<Course>, id: Id, body: Body, requester: User, schema: Schema)
    : (o: Outcome)
    ensures !IsObjectId(id) ==> o == Outcome(Forward(CastError(id)), courses)
    ensures IsObjectId(id) && CourseIndex(courses, id).None? ==> o == Outcome(Fail(CourseNotFound, 404), courses)
    ensures IsObjectId(id) && CourseIndex(courses, id).Some?
      && !MayModify(courses[CourseIndex(courses, id).value].user, requester)
      ==> o == Outcome(Fail(PermissionDenied, 403), courses)
    ensures IsObjectId(id) && CourseIndex(courses, id).Some?
      && MayModify(courses[CourseIndex(courses, id).value].user, requester) && schema(body).Some?
      ==> o == Outcome(Forward(schema(body).value), courses)
    ensures o.reply.Respond? <==>
      && IsObjectId(id) && CourseIndex(courses, id).Some?
      && MayModify(courses[CourseIndex(courses, id).value].user, requester) && schema(body).None?
    ensures !o.reply.Respond? ==> o.courses == courses
    ensures o.reply.Respond? ==>
      var i := CourseIndex(courses, id).value;
      && o.courses == courses[i := MergeCourse(courses[i], body)]
      && o.reply == DataReply(202, JDoc(CourseDoc(o.courses[i])))
  {
    var found := FindCourse(courses, id);
    if found.Failure? then Outcome(Forward(found.error), courses)
    else if found.value.None? then Outcome(Fail(CourseNotFound, 404), courses)
    else
      var i := found.value.value;
      if !MayModify(courses[i].user, requester) then Outcome(Fail(PermissionDenied, 403), courses)
      else if schema(body).Some? then Outcome(Forward(schema(body).value), courses)
      else
        var c := MergeCourse(courses[i], body);
        Outcome(DataReply(202, JDoc(CourseDoc(c))), courses[i := c])
  }

  function DeleteCourseOutcome(courses: seq<Course>, id: Id, requester: User): (o: Outcome)
    ensures !IsObjectId(id) ==> o == Outcome(Forward(CastError(id)), courses)
    ensures IsObjectId(id) && CourseIndex(courses, id).None? ==> o == Outcome(Fail(CourseNotFound, 404), courses)
    ensures IsObjectId(id) && CourseIndex(courses, id).Some? ==>
      var i := CourseIndex(courses, id).value;
      && (!MayModify(courses[i].user, requester) ==> o == Outcome(Fail(PermissionDenied, 403), courses))
      && (MayModify(courses[i].user, requester) ==>
            o == Outcome(Succeed(202, []), courses[..i] + courses[i + 1..]))
  {
    var found := FindCourse(courses, id);
    if found.Failure? then Outcome(Forward(found.error), courses)
    else if found.value.None? then Outcome(Fail(CourseNotFound, 404), courses)
    else
      var i := found.value.value;
      if !MayModify(courses[i].user, requester) then Outcome(Fail(PermissionDenied, 403), courses)
      else Outcome(Succeed(202, []), courses[..i] + courses[i + 1..])
  }

  // ---------------------------------------------------------------------------
  // The handlers on the store.

  method AddCourse(
      store: Store, routeBootcampId: Option<Id>, body: Body, requester: User, newId: Id, schema: Schema)
    returns (reply: Reply)
    modifies store
    ensures Outcome(reply, store.courses)
      == AddCourseOutcome(old(store.bootcamps), old(store.courses), routeBootcampId, body, requester, newId, schema)
    ensures store.bootcamps == old(store.bootcamps) && store.users == old(store.users)
  {
    var bootcampId := routeBootcampId;
    bootcampId := if "bootcamp" in body then Some(body["bootcamp"]) else None;
    var body := body["user" := requester.id];
    if bootcampId.None? {
      return Fail(BootcampNotFound, 404);
    }
    var found := FindBootcamp(store.bootcamps, bootcampId.value);
    if found.Failure? {
      return Forward(found.error);
    }
    if found.value.None? {
      return Fail(BootcampNotFound, 404);
    }
    var bootcamp := found.value.value;
    if bootcamp.user != requester.id && requester.role != "admin" {
      return Fail(PermissionDenied, 403);
    }
    var invalid := schema(body);
    if invalid.Some? {
      return Forward(invalid.value);
    }
    if CourseIndex(store.courses, newId).Some? {
      return Forward(DuplicateKeyError());
    }
    var course := NewCourse(newId, body, bootcampId.value, requester.id);
    store.courses := store.courses + [course];
    reply := DataReply(202, JDoc(CourseDoc(course)));
  }

  method UpdateCourse(store: Store, id: Id, body: Body, requester: User, schema: Schema)
    returns (reply: Reply)
    modifies store
    ensures Outcome(reply, store.courses) == UpdateCourseOutcome(old(store.courses), id, body, requester, schema)
    ensures store.bootcamps == old(store.bootcamps) && store.users == old(store.users)
  {
    var found := FindCourse(store.courses, id);
    if found.Failure? {
      return Forward(found.error);
    }
    if found.value.None? {
      return Fail(CourseNotFound, 404);
    }
    var i := found.value.value;
    var course := store.courses[i];
    if course.user != requester.id && requester.role != "admin" {
      return Fail(PermissionDenied, 403);
    }
    var invalid := schema(body);
    if invalid.Some? {
      return Forward(invalid.value);
    }
    course := MergeCourse(course, body);
    store.courses := store.courses[i := course];
    reply := DataReply(202, JDoc(CourseDoc(course)));
  }

  method DeleteCourse(store: Store, id: Id, requester: User) returns (reply: Reply)
    modifies store
    ensures Outcome(reply, store.courses) == DeleteCourseOutcome(old(store.courses), id, requester)
    ensures store.bootcamps == old(store.bootcamps) && store.users == old(store.users)
  {
    var found := FindCourse(store.courses, id);
    if found.Failure? {
      return Forward(found.error);
    }
    if found.value.None? {
      return Fail(CourseNotFound, 404);
    }
    var i := found.value.value;
    if store.courses[i].user != requester.id && requester.role != "admin" {
      return Fail(PermissionDenied, 403);
    }
    store.courses := store.courses[..i] + store.courses[i + 1..];
    reply := Succeed(202, []);
  }

  // ---------------------------------------------------------------------------
  // Properties.

  /** The route's bootcamp id plays no part in adding a course. */
  lemma AddCourseIgnoresRoute(
      bootcamps: map<Id, Bootcamp>, courses: seq<Course>, r1: Option<Id>, r2: Option<Id>,
      body: Body, requester: User, newId: Id, schema: Schema)
    ensures AddCourseOutcome(bootcamps, courses, r1, body, requester, newId, schema)
      == AddCourseOutcome(bootcamps, courses, r2, body, requester, newId, schema)
  {
  }

  /** A course that was added is listed under its bootcamp, after the ones already
      there, and the listings of the other bootcamps stay as they were. */
  lemma AddedCourseListed(
      bootcamps: map<Id, Bootcamp>, courses: seq<Course>, route: Option<Id>,
      body: Body, requester: User, newId: Id, schema: Schema, b: Id)
    requires AddCourseOutcome(bootcamps, courses, route, body, requester, newId, schema).reply.Respond?
    ensures var after := AddCourseOutcome(bootcamps, courses, route, body, requester, newId, schema).courses;
      CoursesOf(after, b) == CoursesOf(courses, b) + (if b == body["bootcamp"] then [after[|courses|]] else [])
  {
    var after := AddCourseOutcome(bootcamps, courses, route, body, requester, newId, schema).courses;
    CoursesOfAppend(courses, after[|courses|], b);
    assert after == courses + [after[|courses|]];
  }

  /** Deleting a course removes only that course: the listing of every other
      bootcamp is unchanged. */
  lemma DeleteKeepsOtherListings(courses: seq<Course>, id: Id, requester: User, b: Id)
    requires IsObjectId(id) && CourseIndex(courses, id).Some?
    requires b != courses[CourseIndex(courses, id).value].bootcamp
    ensures CoursesOf(DeleteCourseOutcome(courses, id, requester).courses, b) == CoursesOf(courses, b)
  {
    var i := CourseIndex(courses, id).value;
    if MayModify(courses[i].user, requester) {
      CoursesOfRemove(courses, i, b);
    }
  }
}
