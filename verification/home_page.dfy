/**
 * The home page: the clean-up applied to today's courses and to the
 * teacher list before they are shown, the cut of the teacher list to six,
 * and the remaining-places label in its home-page form.
 */
module HomePage {
  import opened JsValue
  import opened JsArray
  import opened Text
  import Capacity

  const DefaultAvatar := "/images/default-avatar.png"
  const DefaultDanceTypeName := "课程"
  const TeachersShown := 6

  /** The course fields `preprocessCourses` reads or fills; the rest pass through in `info`. */
  datatype Course = Course(
    courseId: Value,
    id: Value,
    teacherAvatar: Value,
    danceTypeName: Value,
    capacity: int,
    bookedCount: int,
    info: map<string, Value>)

  /** One course: fill the id from `id`, default the avatar and the dance-type name, cap the bookings at capacity. */
  function Preprocess(c: Course): (r: Course)
    ensures r.bookedCount <= r.capacity && r.capacity == c.capacity && r.id == c.id && r.info == c.info
    ensures c.bookedCount <= c.capacity ==> r.bookedCount == c.bookedCount
    ensures c.bookedCount > c.capacity ==> r.bookedCount == c.capacity
    ensures Truthy(c.courseId) || !Truthy(c.id) ==> r.courseId == c.courseId
    ensures !Truthy(c.courseId) && Truthy(c.id) ==> r.courseId == Str(ToStr(c.id))
    ensures Truthy(c.teacherAvatar) ==> r.teacherAvatar == c.teacherAvatar
    ensures !Truthy(c.teacherAvatar) ==> r.teacherAvatar == Str(DefaultAvatar)
    ensures Truthy(c.danceTypeName) ==> r.danceTypeName == c.danceTypeName
    ensures !Truthy(c.danceTypeName) ==> r.danceTypeName == Str(DefaultDanceTypeName)
  {
    var a := if !Truthy(c.courseId) && Truthy(c.id) then c.(courseId := Str(ToStr(c.id))) else c;
    var b := if !Truthy(a.teacherAvatar) then a.(teacherAvatar := Str(DefaultAvatar)) else a;
    var d := if !Truthy(b.danceTypeName) then b.(danceTypeName := Str(DefaultDanceTypeName)) else b;
    if d.bookedCount > d.capacity then d.(bookedCount := d.capacity) else d
  }

  /** `preprocessCourses`: the clean-up applied to each course, in order. */
  function PreprocessCourses(cs: seq<Course>): (r: seq<Course>)
    ensures |r| == |cs|
    ensures forall i :: 0 <= i < |cs| ==> r[i] == Preprocess(cs[i])
  {
    seq(|cs|, i requires 0 <= i < |cs| => Preprocess(cs[i]))
  }

  /** A course that needs no clean-up is left alone. */
  predicate Clean(c: Course) {
    Truthy(c.courseId) && Truthy(c.teacherAvatar) && Truthy(c.danceTypeName) && c.bookedCount <= c.capacity
  }

  /** After the clean-up every course is clean and within capacity, and cleaning again changes nothing. */
  lemma PreprocessIsIdempotent(cs: seq<Course>)
    requires forall i :: 0 <= i < |cs| ==> Truthy(cs[i].courseId) || Truthy(cs[i].id)
    ensures forall i :: 0 <= i < |cs| ==> Clean(PreprocessCourses(cs)[i])
    ensures PreprocessCourses(PreprocessCourses(cs)) == PreprocessCourses(cs)
  {
    var r := PreprocessCourses(cs);
    forall i | 0 <= i < |cs|
      ensures Clean(r[i]) && Preprocess(r[i]) == r[i]
    {
      if !Truthy(cs[i].courseId) {
        assert r[i].courseId == Str(ToStr(cs[i].id));
        assert ToStr(cs[i].id) != "" by {
          match cs[i].id
          case Num(n) =>
          case _ =>
        }
      }
    }
  }

  /** The teacher fields the home page fills in. */
  datatype Teacher = Teacher(teacherId: Value, id: Value, avatar: Value, info: map<string, Value>)

  function PreprocessTeacher(t: Teacher): (r: Teacher)
    ensures r.id == t.id && r.info == t.info
    ensures Truthy(t.teacherId) || !Truthy(t.id) ==> r.teacherId == t.teacherId
    ensures !Truthy(t.teacherId) && Truthy(t.id) ==> r.teacherId == Str(ToStr(t.id))
    ensures Truthy(t.avatar) ==> r.avatar == t.avatar
    ensures !Truthy(t.avatar) ==> r.avatar == Str(DefaultAvatar)
  {
    var a := if !Truthy(t.teacherId) && Truthy(t.id) then t.(teacherId := Str(ToStr(t.id))) else t;
    if !Truthy(a.avatar) then a.(avatar := Str(DefaultAvatar)) else a
  }

  /** `loadTeachers`: the clean-up of every teacher, then `slice(0, 6)`. */
  function ShownTeachers(ts: seq<Teacher>): (r: seq<Teacher>)
  {
    Slice(seq(|ts|, i requires 0 <= i < |ts| => PreprocessTeacher(ts[i])), 0, TeachersShown)
  }

  /** At most six teachers are shown: the first six of the list, in order, each cleaned up. */
  lemma FirstSixTeachers(ts: seq<Teacher>)
    ensures |ShownTeachers(ts)| == if |ts| < TeachersShown then |ts| else TeachersShown
    ensures forall i :: 0 <= i < |ShownTeachers(ts)| ==> ShownTeachers(ts)[i] == PreprocessTeacher(ts[i])
  {
    var all := seq(|ts|, i requires 0 <= i < |ts| => PreprocessTeacher(ts[i]));
    SliceNonNegative(all, 0, TeachersShown);
  }

  /** The home page's remaining-places label: `剩余N名额` when few places are left. */
  function RemainingText(c: Course): (r: string)
  {
    Capacity.RemainingText("剩余", c.capacity, c.bookedCount)
  }

  function RemainingClass(c: Course): (r: string)
  {
    Capacity.RemainingClass(c.capacity, c.bookedCount)
  }

  /** On a preprocessed course the count shown is never negative: the short form shows a digit from 0 to 5. */
  lemma PreprocessedLabel(c: Course)
    ensures var p := Preprocess(c);
      Capacity.Remaining(p.capacity, p.bookedCount) >= 0
      && (RemainingClass(p) == "text-warning" ==> RemainingText(p) == "剩余" + [DigitChar(p.capacity - p.bookedCount)] + "名额")
  {
    var p := Preprocess(c);
    if RemainingClass(p) == "text-warning" {
      Capacity.ShortFormCount("剩余", p.capacity, p.bookedCount);
    }
  }
}
