/**
 * The course detail page: the booking status worked out when the page
 * loads, the user's remaining classes for the course's dance type, the
 * gate and the update of `bookCourse`, the button's text and style, and
 * the difficulty stars.
 */
module CourseDetail {
  import opened Wrappers

  datatype Status = Available | Booked | Full | Expired

  /** The course fields the page reads; times are instants in milliseconds. */
  datatype Course = Course(courseId: string, danceType: string, consumeType: string, start: int, capacity: int, bookedCount: int)

  /** `checkBookingStatus`: expiry is checked before capacity, and `booked` is never produced. */
  function CheckBookingStatus(c: Course, now: int): (s: Status)
    ensures s != Booked
    ensures s == Expired <==> c.start < now
    ensures s == Full <==> now <= c.start && c.bookedCount >= c.capacity
    ensures s == Available <==> now <= c.start && c.bookedCount < c.capacity
  {
    if c.start < now then Expired
    else if c.bookedCount >= c.capacity then Full
    else Available
  }

  /**
   * `getUserRemainingClasses`: `userInfo?.remainingClasses?.[danceType] || 0`
   * for a logged-in user, otherwise 0. `counts` is the user's
   * `remainingClasses` record, if there is one.
   */
  function RemainingClasses(isLogin: bool, counts: Option<map<string, int>>, danceType: string): (n: int)
    ensures !isLogin || counts.None? ==> n == 0
    ensures isLogin && counts.Some? && danceType !in counts.value ==> n == 0
    ensures isLogin && counts.Some? && danceType in counts.value ==> n == counts.value[danceType]
  {
    if !isLogin then 0
    else if counts.Some? && danceType in counts.value then counts.value[danceType]
    else 0
  }

  /** The page's state: the course shown, its status and the user's remaining classes. */
  datatype Page = Page(course: Course, status: Status, remaining: int)

  datatype Refusal = NotLoggedIn | CourseExpired | CourseFull | AlreadyBooked | NoClassesLeft | NotConfirmed | RequestFailed

  /** Why `bookCourse` stops before asking for confirmation, if it does. */
  function Gate(p: Page, isLogin: bool): (r: Option<Refusal>)
    ensures r.None? <==> isLogin && p.status == Available && !(p.course.consumeType == "class_card" && p.remaining <= 0)
  {
    if !isLogin then Some(NotLoggedIn)
    else if p.status.Expired? then Some(CourseExpired)
    else if p.status.Full? then Some(CourseFull)
    else if p.status.Booked? then Some(AlreadyBooked)
    else if p.course.consumeType == "class_card" && p.remaining <= 0 then Some(NoClassesLeft)
    else None
  }

  /**
   * `bookCourse`, with the user's answer to the confirmation and the
   * booking request's outcome as inputs: the new state, or the reason
   * nothing changed.
   */
  function BookCourse(p: Page, isLogin: bool, confirmed: bool, requestOk: bool): (r: Result<Page, Refusal>)
    ensures r.Err? ==> Gate(p, isLogin).Some? || !confirmed || !requestOk
    ensures r.Ok? <==> Gate(p, isLogin).None? && confirmed && requestOk
    ensures r.Ok? ==> r.value.status == Booked
    ensures r.Ok? ==> r.value.course == p.course.(bookedCount := p.course.bookedCount + 1)
    ensures r.Ok? ==> r.value.remaining == (if p.course.consumeType == "class_card" then p.remaining - 1 else p.remaining)
  {
    match Gate(p, isLogin)
    case Some(why) => Err(why)
    case None =>
      if !confirmed then Err(NotConfirmed)
      else if !requestOk then Err(RequestFailed)
      else
        var remaining := if p.course.consumeType == "class_card" then p.remaining - 1 else p.remaining;
        Ok(Page(p.course.(bookedCount := p.course.bookedCount + 1), Booked, remaining))
  }

  /** The state the page keeps: an available course still has a free place. */
  predicate Consistent(p: Page) {
    p.status == Available ==> p.course.bookedCount < p.course.capacity
  }

  /** Loading the page establishes the invariant. */
  lemma LoadIsConsistent(c: Course, now: int, remaining: int)
    ensures Consistent(Page(c, CheckBookingStatus(c, now), remaining))
  {
  }

  /** A successful booking keeps the count within capacity, keeps the invariant, and a second booking is refused. */
  lemma BookingStaysWithinCapacity(p: Page, isLogin: bool, confirmed: bool, requestOk: bool)
    requires Consistent(p) && p.course.bookedCount <= p.course.capacity
    requires BookCourse(p, isLogin, confirmed, requestOk).Ok?
    ensures var q := BookCourse(p, isLogin, confirmed, requestOk).value;
      q.course.bookedCount <= q.course.capacity && Consistent(q)
      && BookCourse(q, isLogin, confirmed, requestOk) == Err(AlreadyBooked)
  {
  }

  /** A class-card booking never takes the remaining classes below zero. */
  lemma ClassCardNeverNegative(p: Page, isLogin: bool, confirmed: bool, requestOk: bool)
    requires p.course.consumeType == "class_card" && BookCourse(p, isLogin, confirmed, requestOk).Ok?
    ensures BookCourse(p, isLogin, confirmed, requestOk).value.remaining >= 0
  {
  }

  /**
   * On a freshly loaded page a class-card course can be booked only by a
   * logged-in user whose record holds a positive count for its dance type;
   * a missing record or a missing count refuses it for want of classes.
   */
  lemma LoadedPageGatesClassCard(c: Course, now: int, isLogin: bool, counts: Option<map<string, int>>)
    ensures var p := Page(c, CheckBookingStatus(c, now), RemainingClasses(isLogin, counts, c.danceType));
      Gate(p, isLogin).None? <==> (isLogin && now <= c.start && c.bookedCount < c.capacity
       && (c.consumeType != "class_card" || (counts.Some? && c.danceType in counts.value && counts.value[c.danceType] > 0)))
    ensures var p := Page(c, CheckBookingStatus(c, now), RemainingClasses(isLogin, counts, c.danceType));
      (isLogin && now <= c.start && c.bookedCount < c.capacity && c.consumeType == "class_card"
       && (counts.None? || c.danceType !in counts.value)) ==> Gate(p, isLogin) == Some(NoClassesLeft)
  {
  }

  /** The booking button's text and style for each status. */
  function ButtonText(s: Status): (r: string)
  {
    match s
    case Expired => "已结束"
    case Full => "已满员"
    case Booked => "已预约"
    case Available => "立即预约"
  }

  function ButtonClass(s: Status): (r: string)
  {
    match s
    case Expired => "btn-disabled"
    case Full => "btn-disabled"
    case Booked => "btn-success"
    case Available => "btn-primary"
  }

  /** The button is disabled exactly when the gate refuses for the course itself, and its text tells the statuses apart. */
  lemma ButtonMatchesGate(p: Page)
    ensures ButtonClass(p.status) == "btn-disabled" <==> Gate(p, true) in {Some(CourseExpired), Some(CourseFull)}
    ensures forall s, t :: ButtonText(s) == ButtonText(t) ==> s == t
  {
  }

  /** `getDifficultyStars`: five flags, on below the difficulty. */
  function DifficultyStars(difficulty: int): (r: seq<bool>)
    ensures |r| == 5
  {
    seq(5, i => i < difficulty)
  }

  function CountOn(flags: seq<bool>): (n: nat)
    ensures n <= |flags|
  {
    if flags == [] then 0 else (if flags[0] then 1 else 0) + CountOn(flags[1..])
  }

  /** The stars are a run of lit stars then unlit ones, and their number is the difficulty clipped to 0..5. */
  lemma {:induction false} StarsCount(difficulty: int)
    ensures var r := DifficultyStars(difficulty);
      forall i, j :: 0 <= i < j < 5 && r[j] ==> r[i]
    ensures CountOn(DifficultyStars(difficulty)) == if difficulty < 0 then 0 else if difficulty > 5 then 5 else difficulty
  {
    var r := DifficultyStars(difficulty);
    assert CountOn(r[5..]) == 0;
    assert CountOn(r[4..]) == (if r[4] then 1 else 0) by { assert r[4..][1..] == r[5..]; }
    assert CountOn(r[3..]) == (if r[3] then 1 else 0) + CountOn(r[4..]) by { assert r[3..][1..] == r[4..]; }
    assert CountOn(r[2..]) == (if r[2] then 1 else 0) + CountOn(r[3..]) by { assert r[2..][1..] == r[3..]; }
    assert CountOn(r[1..]) == (if r[1] then 1 else 0) + CountOn(r[2..]) by { assert r[1..][1..] == r[2..]; }
    assert CountOn(r) == (if r[0] then 1 else 0) + CountOn(r[1..]);
  }
}
