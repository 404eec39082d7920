/** The document store the controllers work against: the bootcamps by id, and the
    courses and users in insertion order (the order `find` and `findOne` return them
    in). Lookups by id go through `findById`, which refuses a string that is not an
    ObjectId with a CastError. */
module Store {
  import opened Wrappers
  import opened Documents
  import opened ErrorResponses
  import opened UserModel

  predicate IsHexDigit(c: char) {
    ('0' <= c <= '9') || ('a' <= c <= 'f') || ('A' <= c <= 'F')
  }

  /** The 24-character hexadecimal form of an ObjectId. */
  predicate IsObjectId(s: string) {
    |s| == 24 && forall i :: 0 <= i < |s| ==> IsHexDigit(s[i])
  }

  /** The position of the first element whose key is `k`: what `findOne` and
      `findById` return on a collection kept in insertion order. */
  function FirstIndex<T, K(==)>(xs: seq<T>, key: T -> K, k: K): (r: Option<nat>)
    ensures r.Some? ==> r.value < |xs| && key(xs[r.value]) == k
    ensures r.Some? ==> forall j :: 0 <= j < r.value ==> key(xs[j]) != k
    ensures r.None? ==> forall j :: 0 <= j < |xs| ==> key(xs[j]) != k
    decreases |xs|
  {
    if |xs| == 0 then None
    else if key(xs[0]) == k then Some(0)
    else
      var r := FirstIndex(xs[1..], key, k);
      if r.Some? then Some(r.value + 1) else None
  }

  function CourseId(c: Course): Id { c.id }
  function UserId(u: User): Id { u.id }
  function UserEmail(u: User): string { u.email }

  /** The position of the first course with this id. */
  function CourseIndex(courses: seq<Course>, id: Id): Option<nat> {
    FirstIndex(courses, CourseId, id)
  }

  /** The position of the first user with this id. */
  function UserIndex(users: seq<User>, id: Id): Option<nat> {
    FirstIndex(users, UserId, id)
  }

  /** The position of the first user with this email. */
  function EmailIndex(users: seq<User>, email: string): Option<nat> {
    FirstIndex(users, UserEmail, email)
  }

  /** `find({ bootcamp: id })`: the courses of one bootcamp, in store order. */
  function CoursesOf(courses: seq<Course>, bootcamp: Id): (r: seq<Course>)
    ensures |r| <= |courses|
    ensures forall k :: 0 <= k < |r| ==> r[k].bootcamp == bootcamp && r[k] in courses
    ensures forall c :: c in courses && c.bootcamp == bootcamp ==> c in r
  {
    if |courses| == 0 then []
    else (if courses[0].bootcamp == bootcamp then [courses[0]] else []) + CoursesOf(courses[1..], bootcamp)
  }

  /** `Bootcamp.findById(id)`. */
  function FindBootcamp(bootcamps: map<Id, Bootcamp>, id: Id): (r: Result<Option<Bootcamp>, ErrorObject>)
    ensures r.Failure? <==> !IsObjectId(id)
    ensures r.Failure? ==> r.error == CastError(id)
    ensures r.Success? ==> (r.value.Some? <==> id in bootcamps)
    ensures r.Success? && r.value.Some? ==> r.value.value == bootcamps[id]
  {
    if !IsObjectId(id) then Failure(CastError(id))
    else if id in bootcamps then Success(Some(bootcamps[id]))
    else Success(None)
  }

  /** `Course.findById(id)`, as the position of the course found. */
  function FindCourse(courses: seq<Course>, id: Id): (r: Result<Option<nat>, ErrorObject>)
    ensures r.Failure? <==> !IsObjectId(id)
    ensures r.Failure? ==> r.error == CastError(id)
    ensures r.Success? ==> r.value == CourseIndex(courses, id)
  {
    if !IsObjectId(id) then Failure(CastError(id)) else Success(CourseIndex(courses, id))
  }

  /** `User.findById(id)`, without the password. */
  function FindUser(users: seq<User>, id: Id): (r: Result<Option<User>, ErrorObject>)
    ensures r.Failure? <==> !IsObjectId(id)
    ensures r.Failure? ==> r.error == CastError(id)
    ensures r.Success? ==> (r.value.Some? <==> exists j :: 0 <= j < |users| && users[j].id == id)
    ensures r.Success? && r.value.Some? ==> r.value.value.id == id && r.value.value.password.None?
    ensures r.Success? && r.value.Some? ==>
      UserIndex(users, id).Some? && r.value.value == DefaultSelection(users[UserIndex(users, id).value])
  {
    if !IsObjectId(id) then Failure(CastError(id))
    else
      var i := UserIndex(users, id);
      if i.Some? then Success(Some(DefaultSelection(users[i.value]))) else Success(None)
  }

  /** `findOne({ user: owner })` finds something. */
  predicate OwnsBootcamp(bootcamps: map<Id, Bootcamp>, owner: Id) {
    exists id :: id in bootcamps && bootcamps[id].user == owner
  }

  /** Every bootcamp is stored under its own id. */
  predicate KeyedById(bootcamps: map<Id, Bootcamp>) {
    forall id :: id in bootcamps ==> bootcamps[id].id == id
  }

  class Store {
    var bootcamps: map<Id, Bootcamp>
    var courses: seq<Course>
    var users: seq<User>

    predicate Valid()
      reads this
    {
      KeyedById(bootcamps)
    }

    constructor ()
      ensures Valid() && bootcamps == map[] && courses == [] && users == []
    {
      bootcamps := map[];
      courses := [];
      users := [];
    }
  }

  /** The courses of a bootcamp are exactly those whose `bootcamp` is its id, in
      store order: adding a course of another bootcamp does not change them. */
  lemma {:induction false} CoursesOfAppend(courses: seq<Course>, c: Course, bootcamp: Id)
    ensures CoursesOf(courses + [c], bootcamp)
      == CoursesOf(courses, bootcamp) + (if c.bootcamp == bootcamp then [c] else [])
  {
    if |courses| > 0 {
      assert (courses + [c])[1..] == courses[1..] + [c];
      CoursesOfAppend(courses[1..], c, bootcamp);
    } else {
      assert [c][1..] == [];
    }
  }

  /** Removing one course keeps the courses of every other bootcamp. */
  lemma {:induction false} CoursesOfRemove(courses: seq<Course>, i: nat, bootcamp: Id)
    requires i < |courses| && courses[i].bootcamp != bootcamp
    ensures CoursesOf(courses[..i] + courses[i + 1..], bootcamp) == CoursesOf(courses, bootcamp)
  {
    if i > 0 {
      assert (courses[..i] + courses[i + 1..])[1..] == courses[1..][..i - 1] + courses[1..][i..];
      CoursesOfRemove(courses[1..], i - 1, bootcamp);
    } else {
      assert courses[..0] + courses[1..] == courses[1..];
    }
  }
}
