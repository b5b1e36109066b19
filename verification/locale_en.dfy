/**
 * The English translation table of `locales/en.js`, and what the registry
 * does with it. The table is one object literal in the source; here its
 * entries are grouped by the namespace before the first dot (`app`,
 * `navbar`, `index`, ...), each group a map in source order, and the table
 * is the union of the groups. No two namespaces share their first three
 * letters, so the grouping changes no lookup: the `NotIn` lemmas below say
 * that a key outside a namespace is not in its group.
 */
module LocaleEn {

  /** The `app.` entries (`locales/en.js` lines 3-4). */
  const AppEntries: map<string, string> := map[
    "app.name" := "Futian Shaxia Home 24h Dance Studio",
    "app.name.short" := "Futian Shaxia Home"
  ]

  /** The `navbar.` entries (`locales/en.js` lines 7-9). */
  const NavbarEntries: map<string, string> := map[
    "navbar.home" := "Home",
    "navbar.booking" := "Booking",
    "navbar.profile" := "Profile"
  ]

  /** The `index.` entries (`locales/en.js` lines 12-23). */
  const IndexEntries: map<string, string> := map[
    "index.welcome" := "Welcome to Futian Shaxia Home 24h Dance Studio",
    "index.store.info" := "Store Information",
    "index.store.hours" := "Business Hours",
    "index.function.booking" := "Course Booking",
    "index.function.purchase" := "Online Purchase",
    "index.function.teachers" := "Instructors",
    "index.function.shop" := "Merchandise",
    "index.teachers.section" := "Instructors",
    "index.courses.today" := "Today's Courses",
    "index.login.prompt.title" := "Login for More Features",
    "index.login.prompt.desc" := "View booking records, remaining classes, etc.",
    "index.login.button" := "Login Now"
  ]

  /** The `profile.` entries (`locales/en.js` lines 26-37). */
  const ProfileEntries: map<string, string> := map[
    "profile.my.bookings" := "My Bookings",
    "profile.view.bookings" := "View Booking Records",
    "profile.my.course.cards" := "My Course Cards",
    "profile.view.course.cards" := "View Remaining Classes",
    "profile.entrance.code" := "Entrance Code",
    "profile.generate.code" := "Click to Generate Code",
    "profile.customer.service" := "Customer Service",
    "profile.contact.service" := "Contact Service",
    "profile.recent.bookings" := "Recent Bookings",
    "profile.view.all" := "View All",
    "profile.my.cards" := "My Course Cards",
    "profile.logout" := "Logout"
  ]

  /** The `booking.` entries (`locales/en.js` lines 40-139). */
  const BookingEntries: map<string, string> := map[
    "booking.upcoming" := "Upcoming",
    "booking.history" := "History",
    "booking.status" := "Status",
    "booking.time" := "Time",
    "booking.checkin.time" := "Check-in Time",
    "booking.cancel.time" := "Cancel Time",
    "booking.cancel.reason" := "Cancel Reason",
    "booking.checkin" := "Check In",
    "booking.not.checkin.time" := "Not Check-in Time",
    "booking.cancel.booking" := "Cancel Booking",
    "booking.cannot.cancel" := "Cannot Cancel",
    "booking.evaluate" := "Evaluate",
    "booking.rebook" := "Rebook",
    "booking.checked.in" := "Checked In",
    "booking.not.checked.in" := "Not Checked In",
    "booking.no.upcoming" := "No upcoming bookings",
    "booking.no.history" := "No booking history",
    "booking.go.booking" := "Book a Course",
    "booking.load.more" := "Load More",
    "booking.no.more" := "No More Records",
    "booking.confirm" := "Confirm Booking",
    "booking.confirm.content" := "Confirm booking this course?"
  ]

  /** The `course.` entries (`locales/en.js` lines 62-108). */
  const CourseEntries: map<string, string> := map[
    "course.no.more" := "No More Courses",
    "course.select" := "Select",
    "course.date" := "Date",
    "course.dance.type" := "Dance Type",
    "course.teacher" := "Instructor",
    "course.store" := "Store",
    "course.detail" := "Course Details",
    "course.introduction" := "Course Introduction",
    "course.difficulty" := "Difficulty",
    "course.content" := "Content",
    "course.notice" := "Notice",
    "course.teacher" := "Instructor Introduction",
    "course.store.info" := "Store Information",
    "course.booking.notice" := "Booking Notice",
    "course.booking.cancel" := "Free cancellation is available 2 hours before the course starts",
    "course.booking.late" := "No entry will be allowed if you are more than 10 minutes late",
    "course.booking.attire" := "Please wear appropriate sportswear and dance shoes",
    "course.consume.free" := "Free Trial",
    "course.consume.card" := "Consume 1 {danceType} class card",
    "course.remaining" := "{count} remaining",
    "course.book.now" := "Book Now",
    "course.fully.booked" := "Fully Booked"
  ]

  /** The `filter.` entries (`locales/en.js` lines 70-73). */
  const FilterEntries: map<string, string> := map[
    "filter.all" := "All",
    "filter.today" := "Today",
    "filter.tomorrow" := "Tomorrow",
    "filter.this.week" := "This Week"
  ]

  /** The `teacher.` entries (`locales/en.js` lines 76-90). */
  const TeacherEntries: map<string, string> := map[
    "teacher.specialties" := "Specialties",
    "teacher.experience" := "Experience",
    "teacher.courses" := "Courses",
    "teacher.sessions" := "sessions",
    "teacher.no.info" := "No instructor information",
    "teacher.no.more" := "No more instructors",
    "teacher.load.more" := "Load More",
    "teacher.introduction" := "Instructor Introduction",
    "teacher.dance.types" := "Dance Types",
    "teacher.years.experience" := "Years Experience",
    "teacher.classes" := "classes",
    "teacher.rating" := "Rating",
    "teacher.no.courses" := "No courses available",
    "teacher.no.more.courses" := "No more courses",
    "teacher.title" := "Instructor"
  ]

  /** The `admin.` entries (`locales/en.js` lines 111-119). */
  const AdminEntries: map<string, string> := map[
    "admin.login.title" := "Admin Login",
    "admin.login.system" := "Management System",
    "admin.login.phone" := "Please enter your phone number",
    "admin.login.code" := "Please enter verification code",
    "admin.login.button" := "Login",
    "admin.login.forgot" := "Forgot Password?",
    "admin.login.footer" := "If you have any questions, please contact the super administrator",
    "admin.login.phone.error" := "Please enter a valid phone number",
    "admin.login.code.error" := "Please enter a 6-digit verification code"
  ]

  /** The `button.` entries (`locales/en.js` lines 122-127). */
  const ButtonEntries: map<string, string> := map[
    "button.confirm" := "Confirm",
    "button.cancel" := "Cancel",
    "button.back" := "Back",
    "button.share" := "Share",
    "button.call" := "Call",
    "button.navigate" := "Navigate"
  ]

  /** The `text.` entries (`locales/en.js` lines 128-129). */
  const TextEntries: map<string, string> := map[
    "text.loading" := "Loading...",
    "text.empty" := "No data available"
  ]

  /** The `status.` entries (`locales/en.js` lines 132-135). */
  const StatusEntries: map<string, string> := map[
    "status.expired" := "Ended",
    "status.full" := "Full",
    "status.booked" := "Booked",
    "status.available" := "Book Now"
  ]

  /** The `error.` entries (`locales/en.js` lines 142-147). */
  const ErrorEntries: map<string, string> := map[
    "error.network" := "Network connection failed, please check your network settings",
    "error.login.required" := "Please login first to book a course. Login now?",
    "error.course.expired" := "Course has expired",
    "error.course.full" := "Course is full",
    "error.course.booked" := "You have already booked this course",
    "error.classes.insufficient" := "Insufficient class credits. Please purchase a card offline or contact customer service"
  ]

  /** The whole table; within a group a repeated key keeps its later value, as in the object literal. */
  function Table(): map<string, string> {
    AppEntries
    + NavbarEntries
    + IndexEntries
    + ProfileEntries
    + BookingEntries
    + CourseEntries
    + FilterEntries
    + TeacherEntries
    + AdminEntries
    + ButtonEntries
    + TextEntries
    + StatusEntries
    + ErrorEntries
  }

  /** The first three characters of a key, which tell the namespaces apart. */
  predicate HasStem(k: string, a: char, b: char, c: char) {
    |k| >= 3 && k[0] == a && k[1] == b && k[2] == c
  }

  lemma NotInApp(k: string)
    requires !HasStem(k, 'a', 'p', 'p')
    ensures k !in AppEntries
  {
  }

  lemma NotInNavbar(k: string)
    requires !HasStem(k, 'n', 'a', 'v')
    ensures k !in NavbarEntries
  {
  }

  lemma NotInIndex(k: string)
    requires !HasStem(k, 'i', 'n', 'd')
    ensures k !in IndexEntries
  {
  }

  lemma NotInProfile(k: string)
    requires !HasStem(k, 'p', 'r', 'o')
    ensures k !in ProfileEntries
  {
  }

  lemma NotInBooking(k: string)
    requires !HasStem(k, 'b', 'o', 'o')
    ensures k !in BookingEntries
  {
  }

  lemma NotInCourse(k: string)
    requires !HasStem(k, 'c', 'o', 'u')
    ensures k !in CourseEntries
  {
  }

  lemma NotInFilter(k: string)
    requires !HasStem(k, 'f', 'i', 'l')
    ensures k !in FilterEntries
  {
  }

  lemma NotInTeacher(k: string)
    requires !HasStem(k, 't', 'e', 'a')
    ensures k !in TeacherEntries
  {
  }

  lemma NotInAdmin(k: string)
    requires !HasStem(k, 'a', 'd', 'm')
    ensures k !in AdminEntries
  {
  }

  lemma NotInButton(k: string)
    requires !HasStem(k, 'b', 'u', 't')
    ensures k !in ButtonEntries
  {
  }

  lemma NotInText(k: string)
    requires !HasStem(k, 't', 'e', 'x')
    ensures k !in TextEntries
  {
  }

  lemma NotInStatus(k: string)
    requires !HasStem(k, 's', 't', 'a')
    ensures k !in StatusEntries
  {
  }

  lemma NotInError(k: string)
    requires !HasStem(k, 'e', 'r', 'r')
    ensures k !in ErrorEntries
  {
  }

  /** The keys the project's validation script requires are all present. */
  lemma RequiredKeysPresent()
    ensures "navbar.home" in Table() && "navbar.booking" in Table() && "navbar.profile" in Table()
    ensures "app.name" in Table() && "index.welcome" in Table()
  {
    NavbarKeysListed();
    AppKeysListed();
    InTable("navbar.home");
    InTable("navbar.booking");
    InTable("navbar.profile");
    InTable("app.name");
    InTable("index.welcome");
  }

  lemma NavbarKeysListed()
    ensures "navbar.home" in NavbarEntries && "navbar.booking" in NavbarEntries && "navbar.profile" in NavbarEntries
  {
  }

  lemma AppKeysListed()
    ensures "app.name" in AppEntries && "index.welcome" in IndexEntries
  {
  }

  /** A key of the first three groups is a key of the table. */
  lemma InTable(k: string)
    requires k in AppEntries || k in NavbarEntries || k in IndexEntries
    ensures k in Table()
  {
  }

  /** `navbar.home` is found in its own group: no later group holds it. */
  lemma NavbarHomeInGroup()
    ensures "navbar.home" in Table() && Table()["navbar.home"] == NavbarEntries["navbar.home"]
  {
    NotInIndex("navbar.home");
    NotInProfile("navbar.home");
    NotInBooking("navbar.home");
    NotInCourse("navbar.home");
    NotInFilter("navbar.home");
    NotInTeacher("navbar.home");
    NotInAdmin("navbar.home");
    NotInButton("navbar.home");
    NotInText("navbar.home");
    NotInStatus("navbar.home");
    NotInError("navbar.home");
  }

  /** The group that owns `navbar.home` gives it the value `Home`. */
  lemma NavbarHomeValue()
    ensures NavbarEntries["navbar.home"] == "Home"
  {
  }

  /** `navbar.home` reads `Home`. */
  lemma NavbarHome()
    ensures "navbar.home" in Table() && Table()["navbar.home"] == "Home"
  {
    NavbarHomeInGroup();
    NavbarHomeValue();
  }

  /** `navbar.booking` is found in its own group: no later group holds it. */
  lemma NavbarBookingInGroup()
    ensures "navbar.booking" in Table() && Table()["navbar.booking"] == NavbarEntries["navbar.booking"]
  {
    NotInIndex("navbar.booking");
    NotInProfile("navbar.booking");
    NotInBooking("navbar.booking");
    NotInCourse("navbar.booking");
    NotInFilter("navbar.booking");
    NotInTeacher("navbar.booking");
    NotInAdmin("navbar.booking");
    NotInButton("navbar.booking");
    NotInText("navbar.booking");
    NotInStatus("navbar.booking");
    NotInError("navbar.booking");
  }

  /** The group that owns `navbar.booking` gives it the value `Booking`. */
  lemma NavbarBookingValue()
    ensures NavbarEntries["navbar.booking"] == "Booking"
  {
  }

  /** `navbar.booking` reads `Booking`. */
  lemma NavbarBooking()
    ensures "navbar.booking" in Table() && Table()["navbar.booking"] == "Booking"
  {
    NavbarBookingInGroup();
    NavbarBookingValue();
  }

  /** `navbar.profile` is found in its own group: no later group holds it. */
  lemma NavbarProfileInGroup()
    ensures "navbar.profile" in Table() && Table()["navbar.profile"] == NavbarEntries["navbar.profile"]
  {
    NotInIndex("navbar.profile");
    NotInProfile("navbar.profile");
    NotInBooking("navbar.profile");
    NotInCourse("navbar.profile");
    NotInFilter("navbar.profile");
    NotInTeacher("navbar.profile");
    NotInAdmin("navbar.profile");
    NotInButton("navbar.profile");
    NotInText("navbar.profile");
    NotInStatus("navbar.profile");
    NotInError("navbar.profile");
  }

  /** The group that owns `navbar.profile` gives it the value `Profile`. */
  lemma NavbarProfileValue()
    ensures NavbarEntries["navbar.profile"] == "Profile"
  {
  }

  /** `navbar.profile` reads `Profile`. */
  lemma NavbarProfile()
    ensures "navbar.profile" in Table() && Table()["navbar.profile"] == "Profile"
  {
    NavbarProfileInGroup();
    NavbarProfileValue();
  }

  /** `course.teacher` is found in its own group: no later group holds it. */
  lemma CourseTeacherInGroup()
    ensures "course.teacher" in Table() && Table()["course.teacher"] == CourseEntries["course.teacher"]
  {
    NotInFilter("course.teacher");
    NotInTeacher("course.teacher");
    NotInAdmin("course.teacher");
    NotInButton("course.teacher");
    NotInText("course.teacher");
    NotInStatus("course.teacher");
    NotInError("course.teacher");
  }

  /** The group that owns `course.teacher` gives it the value `Instructor Introduction`. */
  lemma CourseTeacherValue()
    ensures CourseEntries["course.teacher"] == "Instructor Introduction"
  {
  }

  /** `course.teacher` is written twice; the later value is the one kept. */
  lemma CourseTeacher()
    ensures "course.teacher" in Table() && Table()["course.teacher"] == "Instructor Introduction"
  {
    CourseTeacherInGroup();
    CourseTeacherValue();
  }

  /** `course.remaining` is found in its own group: no later group holds it. */
  lemma CourseRemainingInGroup()
    ensures "course.remaining" in Table() && Table()["course.remaining"] == CourseEntries["course.remaining"]
  {
    NotInFilter("course.remaining");
    NotInTeacher("course.remaining");
    NotInAdmin("course.remaining");
    NotInButton("course.remaining");
    NotInText("course.remaining");
    NotInStatus("course.remaining");
    NotInError("course.remaining");
  }

  /** The group that owns `course.remaining` gives it the value `{count} remaining`. */
  lemma CourseRemainingValue()
    ensures CourseEntries["course.remaining"] == "{count} remaining"
  {
  }

  /** `course.remaining` is a template with one `{count}` placeholder. */
  lemma CourseRemaining()
    ensures "course.remaining" in Table() && Table()["course.remaining"] == "{count} remaining"
  {
    CourseRemainingInGroup();
    CourseRemainingValue();
  }

  /** `button.all` is used by the home page but missing from the table. */
  lemma ButtonAllAbsent()
    ensures "button.all" !in Table()
  {
    NotInApp("button.all");
    NotInNavbar("button.all");
    NotInIndex("button.all");
    NotInProfile("button.all");
    NotInBooking("button.all");
    NotInCourse("button.all");
    NotInFilter("button.all");
    NotInTeacher("button.all");
    NotInAdmin("button.all");
    NotInText("button.all");
    NotInStatus("button.all");
    NotInError("button.all");
    assert "button.all" !in ButtonEntries;
  }

  /** `status.tense` is used by the booking page but missing from the table. */
  lemma StatusTenseAbsent()
    ensures "status.tense" !in Table()
  {
    NotInApp("status.tense");
    NotInNavbar("status.tense");
    NotInIndex("status.tense");
    NotInProfile("status.tense");
    NotInBooking("status.tense");
    NotInCourse("status.tense");
    NotInFilter("status.tense");
    NotInTeacher("status.tense");
    NotInAdmin("status.tense");
    NotInButton("status.tense");
    NotInText("status.tense");
    NotInError("status.tense");
    assert "status.tense" !in StatusEntries;
  }
}

/** The registry running on the English table. */
module EnglishScenarios {
  import opened I18n
  import opened LocaleEn

  /** The registry with the English table selected. */
  function English(zh: map<string, string>): (r: Registry)
    ensures SetLanguage(Create(map[], Catalog(zh, Table())), map[], Catalog(zh, Table()), "en").registry == r
  {
    Registry("en", Table())
  }

  /** A two-piece template renders as its pieces side by side. */
  lemma RenderPair(a: Piece, b: Piece)
    ensures Render([a, b]) == RenderPiece(a) + RenderPiece(b)
  {
    assert [a, b][1..] == [b];
    assert [b][1..] == [];
    assert Render([b]) == RenderPiece(b) + "";
    assert RenderPiece(b) + "" == RenderPiece(b);
  }

  /** The `{count} remaining` message as a template. */
  function RemainingPieces(): (ps: seq<Piece>)
    ensures WellFormed(ps) && Render(ps) == "{count} remaining"
  {
    RemainingShape();
    [Hole("count"), Lit(" remaining")]
  }

  /** The pieces of `{count} remaining` are brace-free and render back to it. */
  lemma RemainingShape()
    ensures WellFormed([Hole("count"), Lit(" remaining")])
    ensures Render([Hole("count"), Lit(" remaining")]) == "{count} remaining"
  {
    var ps := [Hole("count"), Lit(" remaining")];
    RenderPair(Hole("count"), Lit(" remaining"));
    assert Placeholder("count") == "{count}";
    assert "{count}" + " remaining" == "{count} remaining";
    assert BraceFree("count") by {
      assert forall i :: 0 <= i < |"count"| ==> "count"[i] != '{' && "count"[i] != '}';
    }
    assert BraceFree(" remaining") by {
      assert forall i :: 0 <= i < |" remaining"| ==> " remaining"[i] != '{' && " remaining"[i] != '}';
    }
    assert Content(ps[0]) == "count" && Content(ps[1]) == " remaining";
  }

  /** Filling the count with 3 gives `3 remaining`. */
  lemma RemainingFilled()
    ensures Render(Subst(RemainingPieces(), [Param("count", "3")])) == "3 remaining"
  {
    var qs := Subst(RemainingPieces(), [Param("count", "3")]);
    assert qs[0] == Lit("3") && qs[1] == Lit(" remaining");
    assert qs == [Lit("3"), Lit(" remaining")];
    RenderPair(Lit("3"), Lit(" remaining"));
  }

  /** Any table whose `course.remaining` entry is `{count} remaining` renders a count of 3 as `3 remaining`. */
  lemma RemainingTemplate(r: Registry)
    requires "course.remaining" in r.messages && r.messages["course.remaining"] == "{count} remaining"
    ensures T(r, "course.remaining", [Param("count", "3")]) == "3 remaining"
  {
    TranslateTemplate(r, "course.remaining", RemainingPieces(), [Param("count", "3")]);
    RemainingFilled();
  }

  /** `t('course.remaining', {count: 3})` in English is `3 remaining`. */
  lemma RemainingInEnglish(zh: map<string, string>)
    ensures T(English(zh), "course.remaining", [Param("count", "3")]) == "3 remaining"
  {
    CourseRemaining();
    RemainingTemplate(English(zh));
  }

  /** Keys missing from the English table come back as the raw key. */
  lemma AbsentKeysInEnglish(zh: map<string, string>)
    ensures T(English(zh), "button.all", []) == "button.all"
    ensures T(English(zh), "status.tense", []) == "status.tense"
  {
    ButtonAllAbsent();
    StatusTenseAbsent();
  }

  /** `t('navbar.home')` in English is `Home`. */
  lemma HomeInEnglish(zh: map<string, string>)
    ensures T(English(zh), "navbar.home", []) == "Home"
  {
    NavbarHome();
  }
}
