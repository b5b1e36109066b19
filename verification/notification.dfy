/**
 * The admin notification page: the admin login check, the create form with
 * its type and target pickers, the checks before sending, the captions of
 * types and statuses, and the target options, whose label lookup reads a
 * field the page does not have.
 */
module Notification {
  import opened Wrappers
  import opened JsValue
  import opened Text
  import opened CourseList
  import AdminLogin
  import AppState
  import MockApi

  /** The form of the create dialog. */
  datatype Form = Form(title: string, content: string, kind: string, targetType: string, targetId: string, sendTime: string)

  /** The dialog's state: the form and the caption of the chosen target. */
  datatype Dialog = Dialog(open: bool, form: Form, targetLabel: string)

  const EmptyForm := Form("", "", "course_change", "all", "", "")

  const TypeOptions: seq<Opt> := [
    Opt("course_change", "课程变动"), Opt("class_reminder", "上课提醒"),
    Opt("system", "系统通知"), Opt("promotion", "营销活动")]

  const TargetTypeOptions: seq<Opt> := [
    Opt("all", "全部用户"), Opt("users", "指定用户"), Opt("store", "指定门店"), Opt("course", "指定课程")]

  const StoreTargets: seq<Opt> := [Opt("store1", "南山店"), Opt("store2", "福田店")]

  // ---------------------------------------------------------------------
  // The admin check.

  /** `checkAdminLogin`: with a truthy admin token and record in storage, the app becomes a logged-in admin; otherwise `None` (the page redirects to the login). */
  function CheckAdminLogin(a: AppState.App): (r: Option<AppState.App>)
  {
    var token := Load(a.storage, AdminLogin.AdminTokenKey);
    var info := Load(a.storage, AdminLogin.AdminInfoKey);
    if !Truthy(token) || !Truthy(info) then None
    else Some(a.(data := a.data.(token := token, userInfo := info, isLogin := true, userRole := "admin")))
  }

  /** The page admits whoever the admin login pages let in, and nobody whose storage lacks the admin token. */
  lemma AdminPagesAgree(a: AppState.App, b: AppState.App)
    ensures CheckAdminLogin(AdminLogin.DirectLogin(a)).Some?
    ensures CheckAdminLogin(AdminLogin.DirectLogin(a)).value.data.token == Str("admin_token")
    ensures AdminLogin.AdminTokenKey !in b.storage ==> CheckAdminLogin(b).None?
  {
    var st := AdminLogin.DirectLogin(a).storage;
    assert Load(st, AdminLogin.AdminTokenKey) == Str("admin_token");
    assert Load(st, AdminLogin.AdminInfoKey) == AdminLogin.DirectAdminInfo;
  }

  // ---------------------------------------------------------------------
  // The dialog.

  /** `showCreateNotification`: an empty form, nothing chosen. */
  function ShowCreate(d: Dialog): (r: Dialog)
  {
    Dialog(true, EmptyForm, "")
  }

  /**
   * Whatever was typed before, the dialog opens on the first type with
   * everyone as the target and no caption, and sending it at once is
   * refused for the missing title.
   */
  lemma ShowCreateResets(d: Dialog)
    ensures ShowCreate(d).open && ShowCreate(d).targetLabel == ""
    ensures ShowCreate(d).form.kind == TypeOptions[0].value && ShowCreate(d).form.targetType == TargetTypeOptions[0].value
    ensures SendCheck(ShowCreate(d).form) == Some("请输入通知标题")
  {
  }

  /** `onTargetTypeChange`: the picked kind of target; the target and its caption are cleared. */
  function TargetTypeChange(d: Dialog, index: nat): (r: Dialog)
    requires index < |TargetTypeOptions|
  {
    d.(form := d.form.(targetType := TargetTypeOptions[index].value, targetId := ""), targetLabel := "")
  }

  /** The caption of a course target: `name (date startTime)`. */
  function CourseCaption(name: string, date: string, startTime: string): (r: string)
  {
    name + " (" + date + " " + startTime + ")"
  }

  datatype Course = Course(courseId: string, name: string, date: string, startTime: string)

  /** `getTargetOptions` for a kind of target: the courses, the two stores, or nothing. */
  function TargetOptions(targetType: Value, courses: seq<Course>): (r: seq<Opt>)
    ensures targetType == Str("store") ==> r == StoreTargets
    ensures targetType != Str("store") && targetType != Str("course") ==> r == []
    ensures targetType == Str("course") ==> |r| == |courses|
    ensures targetType == Str("course") ==> forall i :: 0 <= i < |r| ==>
      r[i] == Opt(courses[i].courseId, CourseCaption(courses[i].name, courses[i].date, courses[i].startTime))
  {
    match targetType
    case Str("course") =>
      seq(|courses|, i requires 0 <= i < |courses| =>
        Opt(courses[i].courseId, CourseCaption(courses[i].name, courses[i].date, courses[i].startTime)))
    case Str("store") => StoreTargets
    case _ => []
  }

  /**
   * `onTargetChange` as written: the options come from `this.data.targetType`,
   * a field the page's data does not have (the kind of target lives in the
   * form), so the lookup reads `undefined` and the caption stays empty.
   */
  function TargetChangeAsWritten(d: Dialog, pageData: map<string, Value>, courses: seq<Course>, targetId: string): (r: Dialog)
  {
    var options := TargetOptions(Field(Obj(pageData), "targetType"), courses);
    d.(form := d.form.(targetId := targetId), targetLabel := CaptionOf(options, targetId, ""))
  }

  /** The page's data keys: `targetType` is not among them. */
  predicate PageData(pageData: map<string, Value>) {
    "targetType" !in pageData
  }

  /** Picking a target never shows its caption, even a store listed among the options. */
  lemma TargetLabelAlwaysEmpty(d: Dialog, pageData: map<string, Value>, courses: seq<Course>, targetId: string)
    requires PageData(pageData)
    ensures TargetChangeAsWritten(d, pageData, courses, targetId).targetLabel == ""
    ensures TargetChangeAsWritten(d, pageData, courses, targetId).form.targetId == targetId
  {
  }

  /** `onTargetChange` reading the kind of target from the form. */
  function TargetChange(d: Dialog, courses: seq<Course>, targetId: string): (r: Dialog)
  {
    var options := TargetOptions(Str(d.form.targetType), courses);
    d.(form := d.form.(targetId := targetId), targetLabel := CaptionOf(options, targetId, ""))
  }

  /** With the form's kind of target, a store shows its name, and an id among no options shows nothing. */
  lemma TargetLabelShown(d: Dialog, courses: seq<Course>, targetId: string)
    ensures d.form.targetType == "store" && targetId == "store1" ==> TargetChange(d, courses, targetId).targetLabel == "南山店"
    ensures d.form.targetType == "store" && targetId == "store2" ==> TargetChange(d, courses, targetId).targetLabel == "福田店"
    ensures d.form.targetType !in {"store", "course"} ==> TargetChange(d, courses, targetId).targetLabel == ""
    ensures TargetChange(d, courses, targetId).form == TargetChangeAsWritten(d, map[], courses, targetId).form
  {
    if d.form.targetType == "store" {
      CaptionOfFirst(StoreTargets, targetId, "");
      assert FirstSelecting(StoreTargets, "store1", 0);
      assert FirstSelecting(StoreTargets, "store2", 1);
    }
  }

  /** A course target shows the caption of the first course with that id. */
  lemma CourseTargetLabel(d: Dialog, courses: seq<Course>, targetId: string, i: nat)
    requires d.form.targetType == "course"
    requires i < |courses| && courses[i].courseId == targetId
    requires forall j :: 0 <= j < i ==> courses[j].courseId != targetId
    ensures TargetChange(d, courses, targetId).targetLabel == CourseCaption(courses[i].name, courses[i].date, courses[i].startTime)
  {
    var options := TargetOptions(Str("course"), courses);
    CaptionOfFirst(options, targetId, "");
    assert FirstSelecting(options, targetId, i);
  }

  // ---------------------------------------------------------------------
  // Sending.

  /** `sendNotification`'s checks in order: `None` when the form may be sent. */
  function SendCheck(f: Form): (r: Option<string>)
  {
    if f.title == "" then Some("请输入通知标题")
    else if f.content == "" then Some("请输入通知内容")
    else if f.targetType != "all" && f.targetId == "" then Some("请选择发送目标")
    else None
  }

  /** A notification goes out exactly with a title, a content and, unless it is for everyone, a target. */
  lemma SendCheckAccepts(f: Form)
    ensures SendCheck(f).None? <==> f.title != "" && f.content != "" && (f.targetType == "all" || f.targetId != "")
    ensures f.title == "" ==> SendCheck(f) == Some("请输入通知标题")
  {
  }

  /** After choosing a new kind of target, a notification that is not for everyone cannot go out until a target is picked. */
  lemma TargetTypeChangeNeedsTarget(d: Dialog, index: nat)
    requires 0 < index < |TargetTypeOptions|
    ensures SendCheck(TargetTypeChange(d, index).form).Some?
  {
  }

  /**
   * `sendNotification` as intended: a form that passes the checks is sent,
   * and a request that succeeds closes the dialog; the form stays.
   */
  function Sent(d: Dialog, requestOk: bool): (r: Dialog)
  {
    if SendCheck(d.form).None? && requestOk then d.(open := false) else d
  }

  /**
   * The dialog closes exactly when a notification with a title, a content
   * and (unless it is for everyone) a target was accepted by the server;
   * whatever happens, the form keeps what was typed.
   */
  lemma SentCloses(d: Dialog, requestOk: bool)
    ensures d.open ==> (Sent(d, requestOk).open <==>
      !requestOk || d.form.title == "" || d.form.content == "" || (d.form.targetType != "all" && d.form.targetId == ""))
    ensures !d.open ==> !Sent(d, requestOk).open
    ensures Sent(d, requestOk).form == d.form
  {
    SendCheckAccepts(d.form);
  }

  /**
   * `sendNotification` as written: the page calls `adminApi.sendNotification`,
   * which the mock server's `adminApi` does not define, so the call throws
   * into the `catch` whatever the server would answer.
   */
  function SentAsWritten(d: Dialog, requestOk: bool): (r: Dialog)
  {
    Sent(d, MockApi.AdminCallAnswers("sendNotification", requestOk))
  }

  /** As written, sending never closes the dialog; a complete form would close it once the method exists. */
  lemma SendNeverCloses(d: Dialog, requestOk: bool)
    ensures SentAsWritten(d, requestOk) == d
    ensures d.open && SendCheck(d.form).None? ==> SentAsWritten(d, requestOk).open && !Sent(d, true).open
  {
    MockApi.MissingAdminMethods(requestOk);
  }

  // ---------------------------------------------------------------------
  // Captions.

  /** `getNotificationTypeText`: the caption of the type, or the type itself when it is not one of the four. */
  function TypeText(kind: string): (r: string)
  {
    CaptionOf(TypeOptions, kind, kind)
  }

  lemma TypeTextCases(kind: string)
    ensures kind == "course_change" ==> TypeText(kind) == "课程变动"
    ensures kind == "promotion" ==> TypeText(kind) == "营销活动"
    ensures NoOption(TypeOptions, kind) ==> TypeText(kind) == kind
  {
    CaptionOfFirst(TypeOptions, kind, kind);
    assert FirstSelecting(TypeOptions, "course_change", 0);
    assert FirstSelecting(TypeOptions, "promotion", 3);
  }

  function StatusText(status: string): (r: string)
  {
    match status
    case "draft" => "草稿"
    case "scheduled" => "已计划"
    case "sent" => "已发送"
    case "cancelled" => "已取消"
    case _ => "未知"
  }

  function StatusClass(status: string): (r: string)
  {
    match status
    case "draft" => "status-default"
    case "scheduled" => "status-primary"
    case "sent" => "status-success"
    case "cancelled" => "status-warning"
    case _ => "status-default"
  }

  /** Drafts and unknown statuses share the default style; every other status has a caption and style of its own. */
  lemma StatusCaptions(status: string)
    ensures StatusClass(status) == "status-default" <==> status == "draft" || StatusText(status) == "未知"
    ensures StatusText(status) == "未知" <==> status !in {"draft", "scheduled", "sent", "cancelled"}
  {
  }
}
