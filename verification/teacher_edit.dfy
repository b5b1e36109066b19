/**
 * The admin page that creates or edits a teacher: the form checks in their
 * order, the rating and status controls, the avatar as it is submitted and
 * as the mock server stores it, the submit and the reset.
 */
module TeacherEdit {
  import opened Wrappers
  import opened Text
  import AdminLogin

  /** The form: `experience` is the text typed, `rating` a whole number of stars. */
  datatype Teacher = Teacher(
    name: string,
    phone: string,
    avatar: string,
    danceTypes: seq<string>,
    stores: seq<string>,
    introduction: string,
    experience: string,
    rating: Option<int>,
    status: string)

  /** `resetForm` and the page's initial data: empty fields, five stars, active. */
  const EmptyTeacher := Teacher("", "", "", [], [], "", "", Some(5), "active")

  // ---------------------------------------------------------------------
  // The checks.

  /**
   * `!isNaN(Number(s))` for a string already known not to be blank: after
   * trimming, an optional sign and digits with at most one decimal point,
   * at least one digit in all.
   */
  predicate DecimalNumber(s: string) {
    var t := Trim(s);
    var body := if |t| > 0 && (t[0] == '+' || t[0] == '-') then t[1..] else t;
    |body| > 0
    && (forall i :: 0 <= i < |body| ==> IsDigit(body[i]) || body[i] == '.')
    && (exists i :: 0 <= i < |body| && IsDigit(body[i]))
    && (forall i, j :: 0 <= i < j < |body| && body[i] == '.' ==> body[j] != '.')
  }

  /** The checks of `validateForm` that can fail, in the order they run. */
  datatype Problem = NameMissing | PhoneMissing | PhoneWrong | AvatarMissing | TypesMissing | StoresMissing | ExperienceWrong

  /** The toast each failed check shows. */
  function Message(p: Problem): string {
    match p
    case NameMissing => "请输入导师姓名"
    case PhoneMissing => "请输入手机号码"
    case PhoneWrong => "请输入正确的手机号码"
    case AvatarMissing => "请上传导师头像"
    case TypesMissing => "请选择擅长舞种"
    case StoresMissing => "请选择所属门店"
    case ExperienceWrong => "请输入正确的经验年限"
  }

  /** `validateForm`: `None` when the form passes, else the first check that fails. */
  function Validate(t: Teacher): (r: Option<Problem>)
  {
    if Trim(t.name) == "" then Some(NameMissing)
    else if Trim(t.phone) == "" then Some(PhoneMissing)
    else if !AdminLogin.PhonePattern(t.phone) then Some(PhoneWrong)
    else if t.avatar == "" || Trim(t.avatar) == "" then Some(AvatarMissing)
    else if |t.danceTypes| == 0 then Some(TypesMissing)
    else if |t.stores| == 0 then Some(StoresMissing)
    else if !ExperienceOk(t.experience) then Some(ExperienceWrong)
    else None
  }

  /** `!experience.trim() || isNaN(Number(experience))`, negated. */
  predicate ExperienceOk(s: string) {
    Trim(s) != "" && DecimalNumber(s)
  }

  /** Every condition of a complete form, stated without the order the checks run in. */
  predicate Complete(t: Teacher) {
    !IsBlank(t.name) && AdminLogin.PhonePattern(t.phone) && !IsBlank(t.avatar)
    && |t.danceTypes| > 0 && |t.stores| > 0 && !IsBlank(t.experience) && DecimalNumber(t.experience)
  }

  /** The blank tests of the checks are the trims that come out empty. */
  lemma BlankFields(t: Teacher)
    ensures (Trim(t.name) == "") == IsBlank(t.name)
    ensures (Trim(t.phone) == "") == IsBlank(t.phone)
    ensures (t.avatar == "" || Trim(t.avatar) == "") == IsBlank(t.avatar)
    ensures ExperienceOk(t.experience) == (!IsBlank(t.experience) && DecimalNumber(t.experience))
  {
    TrimBlank(t.name);
    TrimBlank(t.phone);
    TrimBlank(t.avatar);
    TrimBlank(t.experience);
  }

  /** A form passes exactly when it is complete; a blank name is reported before anything else, a blank phone next. */
  lemma ValidateIsComplete(t: Teacher)
    ensures Validate(t).None? <==> Complete(t)
    ensures IsBlank(t.name) ==> Validate(t) == Some(NameMissing)
    ensures !IsBlank(t.name) && IsBlank(t.phone) ==> Validate(t) == Some(PhoneMissing)
  {
    BlankFields(t);
    if AdminLogin.PhonePattern(t.phone) {
      PhoneNotBlank(t.phone);
    }
  }

  /** A phone number that matches the pattern starts with `1`, so it is not blank. */
  lemma PhoneNotBlank(p: string)
    requires AdminLogin.PhonePattern(p)
    ensures !IsBlank(p)
  {
    assert !IsSpace(p[0]);
  }

  /** A reset form is refused for its missing name. */
  lemma ResetFormIsRefused()
    ensures Validate(EmptyTeacher) == Some(NameMissing)
  {
  }

  // ---------------------------------------------------------------------
  // The controls.

  /** `onRatingChange`: the picker's index plus one; an index that does not parse gives `NaN`. */
  function RatingOf(index: string): (r: Option<int>)
  {
    match ParseInt(index)
    case Some(i) => Some(i + 1)
    case None => None
  }

  /** The `i`-th entry of the picker gives `i + 1` stars. */
  lemma RatingIsIndexPlusOne(i: nat)
    ensures RatingOf(NatToString(i)) == Some(i + 1)
  {
    ParseIntRoundTrip(i);
  }

  /** `loadTeacherDetail`: a rating of zero, or none, becomes five stars. */
  function LoadedRating(rating: Option<int>): (r: int)
    ensures rating.Some? && rating.value != 0 ==> r == rating.value
    ensures rating.None? || rating.value == 0 ==> r == 5
  {
    match rating
    case Some(v) => if v != 0 then v else 5
    case None => 5
  }

  /**
   * A loaded rating is never zero; loading it again keeps it; and a rating
   * of one to five stars, or none, lands on a picker entry whose choice
   * gives the same rating back.
   */
  lemma LoadedRatingOnPicker(rating: Option<int>)
    ensures LoadedRating(rating) != 0
    ensures LoadedRating(Some(LoadedRating(rating))) == LoadedRating(rating)
    ensures rating.None? || 0 <= rating.value <= 5 ==> 1 <= LoadedRating(rating) <= 5
    ensures rating.None? || 0 <= rating.value <= 5 ==> RatingOf(NatToString(LoadedRating(rating) - 1)) == Some(LoadedRating(rating))
  {
    if rating.None? || 0 <= rating.value <= 5 {
      RatingIsIndexPlusOne(LoadedRating(rating) - 1);
    }
  }

  /** `onStatusChange`: the switch on is `'active'`, off is `'inactive'`. */
  function StatusOf(on: bool): (s: string)
  {
    if on then "active" else "inactive"
  }

  lemma StatusSwitchRoundTrip(on: bool)
    ensures (StatusOf(on) == "active") == on
    ensures StatusOf(on) in {"active", "inactive"}
  {
  }

  /** `onDanceTypeChange` and `onStoreChange`: the ids of the options picked, in the order of the picks. */
  function Picked(ids: seq<string>, picks: seq<nat>): (r: seq<string>)
    requires forall k :: 0 <= k < |picks| ==> picks[k] < |ids|
    ensures |r| == |picks| && forall k :: 0 <= k < |picks| ==> r[k] == ids[picks[k]]
  {
    seq(|picks|, k requires 0 <= k < |picks| => ids[picks[k]])
  }

  /** The five dance types the form offers. */
  const TypeIds: seq<string> := ["jazz", "kpop", "hiphop", "waacking", "popping"]

  /** The five ids are distinct, so two picks name the same dance type only when they are the same option. */
  lemma TypeIdsDistinct(a: nat, b: nat)
    requires a < |TypeIds| && b < |TypeIds|
    ensures TypeIds[a] == TypeIds[b] <==> a == b
  {
  }

  /** A form with a dance type chosen is never refused for the dance types. */
  lemma TypesChosenPass(t: Teacher)
    requires |t.danceTypes| > 0
    ensures Validate(t) != Some(TypesMissing)
  {
  }

  /**
   * Picking dance types: the form holds one known id per pick, the picks can
   * be read back from the ids, and a form with at least one pick is past the
   * dance-type check.
   */
  lemma PickedDanceTypes(t: Teacher, picks: seq<nat>)
    requires forall k :: 0 <= k < |picks| ==> picks[k] < |TypeIds|
    ensures forall k :: 0 <= k < |picks| ==> Picked(TypeIds, picks)[k] in TypeIds
    ensures forall k, j :: 0 <= k < |picks| && 0 <= j < |picks| ==>
      (Picked(TypeIds, picks)[k] == Picked(TypeIds, picks)[j] <==> picks[k] == picks[j])
    ensures picks != [] ==> Validate(t.(danceTypes := Picked(TypeIds, picks))) != Some(TypesMissing)
  {
    if picks != [] {
      TypesChosenPass(t.(danceTypes := Picked(TypeIds, picks)));
    }
    forall k, j | 0 <= k < |picks| && 0 <= j < |picks|
      ensures Picked(TypeIds, picks)[k] == Picked(TypeIds, picks)[j] <==> picks[k] == picks[j]
    {
      TypeIdsDistinct(picks[k], picks[j]);
    }
  }

  // ---------------------------------------------------------------------
  // The avatar on its way to the server.

  /** What the submitted data carries as the avatar: a path or URL, or the cloud image object. */
  datatype Avatar = Url(url: string) | Image(path: string)

  /** `submitForm`: a temporary file (its path contains `tmp_`) is sent as an image object. */
  function SubmittedAvatar(avatar: string): (a: Avatar)
  {
    if avatar != "" && Contains(avatar, "tmp_") then Image(avatar) else Url(avatar)
  }

  /** The mock server's create and update: an image object is replaced by a cloud URL built from the stamp. */
  function StoredAvatar(a: Avatar, stamp: string): (s: string)
  {
    match a
    case Image(_) => "https://cloud.tencent.com/images/teacher_" + stamp + ".jpg"
    case Url(u) => u
  }

  /** A chosen temporary file never reaches the stored record; any other avatar is stored as it is. */
  lemma AvatarStorage(avatar: string, stamp: string)
    ensures SubmittedAvatar(avatar).Image? <==> Contains(avatar, "tmp_")
    ensures Contains(avatar, "tmp_") ==> StartsWith(StoredAvatar(SubmittedAvatar(avatar), stamp), "https://cloud.tencent.com/images/")
    ensures !Contains(avatar, "tmp_") ==> StoredAvatar(SubmittedAvatar(avatar), stamp) == avatar
  {
    if Contains(avatar, "tmp_") {
      var i :| 0 <= i <= |avatar| - 4 && OccursAt(avatar, "tmp_", i);
      assert avatar != "";
    }
  }

  // ---------------------------------------------------------------------
  // Submitting.

  /** The request `submitForm` sends: an update of the teacher being edited, or a creation. */
  datatype Request = Update(teacherId: string, avatar: Avatar) | Create(avatar: Avatar)

  /** `onLoad`: editing exactly when a teacher id came with the page. */
  function IsEdit(teacherId: string): bool {
    teacherId != ""
  }

  /** `submitForm`: nothing for a form that fails its checks, else the request for the page's mode. */
  function Submit(t: Teacher, teacherId: string): (r: Result<Request, string>)
  {
    match Validate(t)
    case Some(p) => Err(Message(p))
    case None =>
      var a := SubmittedAvatar(t.avatar);
      if IsEdit(teacherId) then Ok(Update(teacherId, a)) else Ok(Create(a))
  }

  /** A request goes out exactly for a complete form; it updates the teacher the page was opened for, or creates one. */
  lemma SubmitSendsCompleteForms(t: Teacher, teacherId: string)
    ensures Submit(t, teacherId).Ok? <==> Complete(t)
    ensures Submit(t, teacherId).Ok? && teacherId != "" ==> Submit(t, teacherId).value == Update(teacherId, SubmittedAvatar(t.avatar))
    ensures Submit(t, teacherId).Ok? && teacherId == "" ==> Submit(t, teacherId).value.Create?
  {
    ValidateIsComplete(t);
  }
}
