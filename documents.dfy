/** The stored documents the controllers read and write. A document's paths other
    than the ones the core code reads (`_id`, `user`, `bootcamp`, `photo`) are kept
    as a map from path to value, and a request body is such a map too. A course keeps
    only the paths models/Course.js declares; models/Bootcamps.js is not part of this
    model, so a bootcamp keeps every body path. */
module Documents {
  import opened Wrappers
  import UserModel

  type Id = string

  /** A request body: path to value. */
  type Body = map<string, string>

  datatype Bootcamp = Bootcamp(id: Id, user: Id, photo: Option<string>, fields: Body)

  datatype Course = Course(id: Id, bootcamp: Id, user: Id, fields: Body)

  datatype Doc = BootcampDoc(bootcamp: Bootcamp) | CourseDoc(course: Course) | UserDoc(user: UserModel.User)

  /** The bootcamp `create(body)` stores under a fresh id; the body already carries
      the owner in `user`. */
  function NewBootcamp(id: Id, body: Body, owner: Id): (b: Bootcamp)
    ensures b.id == id && b.user == owner
    ensures b.photo == (if "photo" in body then Some(body["photo"]) else None)
    ensures forall p :: p in b.fields <==> p in body && p != "user" && p != "photo"
    ensures forall p :: p in b.fields ==> b.fields[p] == body[p]
  {
    Bootcamp(id, owner, if "photo" in body then Some(body["photo"]) else None, body - {"user", "photo"})
  }

  /** `findByIdAndUpdate(id, body)`: every path in the body overwrites the stored
      one; the id stays. */
  function MergeBootcamp(b: Bootcamp, body: Body): (m: Bootcamp)
    ensures m.id == b.id
    ensures m.user == (if "user" in body then body["user"] else b.user)
    ensures m.photo == (if "photo" in body then Some(body["photo"]) else b.photo)
    ensures forall p :: p in m.fields <==> p in b.fields || (p in body && p != "user" && p != "photo")
    ensures forall p :: p in body && p != "user" && p != "photo" ==> m.fields[p] == body[p]
    ensures forall p :: p in m.fields && p !in body ==> m.fields[p] == b.fields[p]
  {
    Bootcamp(
      b.id,
      if "user" in body then body["user"] else b.user,
      if "photo" in body then Some(body["photo"]) else b.photo,
      b.fields + (body - {"user", "photo"}))
  }

  /** The paths models/Course.js declares besides `bootcamp` and `user`. Under
      Mongoose's default strict mode, `create` and `findByIdAndUpdate` store a body
      path only when the schema declares it. */
  const CoursePaths: set<string> :=
    {"title", "description", "weeks", "tuition", "minimumSkill", "scholarshipAvailable", "createdAt"}

  /** The part of a body that a strict schema with the given paths keeps. */
  function Declared(body: Body, paths: set<string>): (d: Body)
    ensures forall p :: p in d <==> p in body && p in paths
    ensures forall p :: p in d ==> d[p] == body[p]
  {
    map p | p in body && p in paths :: body[p]
  }

  function NewCourse(id: Id, body: Body, bootcamp: Id, owner: Id): (c: Course)
    ensures c.id == id && c.bootcamp == bootcamp && c.user == owner
    ensures forall p :: p in c.fields <==> p in body && p in CoursePaths
    ensures forall p :: p in c.fields ==> c.fields[p] == body[p]
  {
    Course(id, bootcamp, owner, Declared(body, CoursePaths))
  }

  function MergeCourse(c: Course, body: Body): (m: Course)
    ensures m.id == c.id
    ensures m.bootcamp == (if "bootcamp" in body then body["bootcamp"] else c.bootcamp)
    ensures m.user == (if "user" in body then body["user"] else c.user)
    ensures forall p :: p in m.fields <==> p in c.fields || (p in body && p in CoursePaths)
    ensures forall p :: p in body && p in CoursePaths ==> m.fields[p] == body[p]
    ensures forall p :: p in m.fields && !(p in body && p in CoursePaths) ==> m.fields[p] == c.fields[p]
  {
    Course(
      c.id,
      if "bootcamp" in body then body["bootcamp"] else c.bootcamp,
      if "user" in body then body["user"] else c.user,
      c.fields + Declared(body, CoursePaths))
  }

  /** Applying the same update twice is applying it once. */
  lemma MergeBootcampIdempotent(b: Bootcamp, body: Body)
    ensures MergeBootcamp(MergeBootcamp(b, body), body) == MergeBootcamp(b, body)
  {
    var m := MergeBootcamp(b, body);
    assert m.fields + (body - {"user", "photo"}) == m.fields;
  }

  lemma MergeCourseIdempotent(c: Course, body: Body)
    ensures MergeCourse(MergeCourse(c, body), body) == MergeCourse(c, body)
  {
    var m := MergeCourse(c, body);
    assert m.fields + Declared(body, CoursePaths) == m.fields;
  }

  /** The ownership rule of every write: the owner, or an admin. */
  predicate MayModify(owner: Id, requester: UserModel.User) {
    owner == requester.id || requester.role == "admin"
  }
}
