/**
 * The admin student list: the guarded, keyword-filtered load, the search,
 * the class-count adjustment dialog with its checks, and the per-type
 * class counts shown for a student.
 */
module StudentManage {
  import opened Wrappers
  import opened JsValue
  import opened Text
  import opened Paging
  import opened JsArray
  import DanceTypes
  import MockApi

  datatype Student = Student(userId: string, remainingClasses: Option<seq<(string, int)>>)

  /** The list part of the page's data, with the search keyword. */
  datatype List = List(pager: Pager<Student>, keyword: string)

  /** The query of `loadStudents`: page and limit, and the keyword when there is one. */
  function StudentsQuery(page: int, limit: int, keyword: string): (ps: Params)
  {
    SetIf(PageParams(page, limit), keyword != "", "keyword", Str(keyword))
  }

  /** The keyword is sent exactly when it is not empty. */
  lemma QueryCarriesKeyword(page: int, limit: int, keyword: string)
    ensures Get(StudentsQuery(page, limit, keyword), "keyword").Some? <==> keyword != ""
    ensures keyword != "" ==> Get(StudentsQuery(page, limit, keyword), "keyword") == Some(Str(keyword))
    ensures StudentsQuery(page, limit, keyword)[..2] == PageParams(page, limit)
  {
    var a := PageParams(page, limit);
    assert Keys(a) == ["page", "limit"];
    if keyword != "" {
      GetAppend(a, "keyword", Str(keyword), "keyword");
    }
  }

  /** `loadStudents(reset)`: refused while a load is in flight, else the query and the flag set. */
  function BeginLoad(l: List, reset: bool, limit: int): (r: Option<(Params, List)>)
  {
    match Begin(l.pager, reset)
    case None => None
    case Some((q, p)) => Some((StudentsQuery(q, limit, l.keyword), l.(pager := p)))
  }

  /** `onSearchConfirm`: page 1 and `hasMore` set, then a reset load. */
  function SearchConfirm(l: List, limit: int): (r: (List, Option<(Params, List)>))
  {
    var t := l.(pager := l.pager.(page := 1, hasMore := true));
    (t, BeginLoad(t, true, limit))
  }

  /**
   * A search confirmed while no load runs asks for page 1 with the current
   * keyword; one confirmed while a load is in flight sends nothing, though
   * the page counter has already gone back to 1.
   */
  lemma SearchAsksFirstPage(l: List, limit: int)
    ensures !l.pager.loading ==> SearchConfirm(l, limit).1.Some?
    ensures !l.pager.loading ==> SearchConfirm(l, limit).1.value.0 == StudentsQuery(1, limit, l.keyword)
    ensures l.pager.loading ==> SearchConfirm(l, limit).1.None? && SearchConfirm(l, limit).0.pager.page == 1
  {
  }

  /**
   * `loadStudents` from start to end: refused while a load is in flight;
   * otherwise the query sent, and the list once the answer, if any, is
   * merged and the flag cleared.
   */
  function LoadStudents(l: List, reset: bool, limit: int, response: Option<Batch<Student>>): (r: Option<(Params, List)>)
  {
    match BeginLoad(l, reset, limit)
    case None => None
    case Some((q, m)) => Some((q, m.(pager := Finish(m.pager, reset, response))))
  }

  /**
   * `loadStudents` as written: it calls `adminApi.getStudentList`, which the
   * mock server's `adminApi` lacks, so every load ends in the `catch` with
   * the failure toast and the flag cleared.
   */
  function LoadStudentsAsWritten(l: List, reset: bool, limit: int, requestOk: bool, b: Batch<Student>): (r: Option<(Params, List)>)
  {
    LoadStudents(l, reset, limit, if MockApi.AdminCallAnswers("getStudentList", requestOk) then Some(b) else None)
  }

  /**
   * As written, a load that starts leaves the list exactly as it found it,
   * and a confirmed search only moves the counter back to page 1. With the
   * method in place, a reset load shows the answer's students.
   */
  lemma StudentsNeverLoad(l: List, reset: bool, limit: int, requestOk: bool, b: Batch<Student>)
    ensures LoadStudentsAsWritten(l, reset, limit, requestOk, b).Some? <==> !l.pager.loading
    ensures !l.pager.loading ==> LoadStudentsAsWritten(l, reset, limit, requestOk, b).value.1 == l
    ensures !l.pager.loading ==>
      LoadStudentsAsWritten(SearchConfirm(l, limit).0, true, limit, requestOk, b).value.1.pager.items == l.pager.items
    ensures !l.pager.loading ==> LoadStudents(l, true, limit, Some(b)).value.1.pager.items == b.list
    ensures !l.pager.loading ==> !LoadStudents(l, reset, limit, Some(b)).value.1.pager.loading
  {
    MockApi.MissingAdminMethods(requestOk);
  }

  /**
   * A load with an answer: a reset one shows just the answer's students, a
   * later one appends them to those shown; either way the counter moves
   * past the page asked for and the flag is cleared.
   */
  lemma LoadStudentsMerges(l: List, reset: bool, limit: int, b: Batch<Student>)
    requires !l.pager.loading
    ensures var r := LoadStudents(l, reset, limit, Some(b));
      && r.Some?
      && r.value.0 == StudentsQuery(Queried(l.pager, reset), limit, l.keyword)
      && r.value.1.pager.items == (if reset then b.list else l.pager.items + b.list)
      && r.value.1.pager.page == Queried(l.pager, reset) + 1
      && r.value.1.pager.hasMore == b.hasMore
      && !r.value.1.pager.loading
      && r.value.1.keyword == l.keyword
  {
  }

  // ---------------------------------------------------------------------
  // The class-count dialog.

  datatype Adjustment = Adjustment(danceType: string, count: int, reason: string)

  const NoAdjustment := Adjustment("", 0, "")

  /** The five dance types of the dialog's picker. */
  const PickerTypes: seq<(string, string)> := [
    ("jazz", "爵士舞"), ("kpop", "韩舞"), ("hiphop", "街舞"), ("waacking", "Waacking"), ("popping", "Popping")]

  /** `onCountInput`: `parseInt(value) || 0`, so text that is not a number counts as zero. */
  function CountOf(value: string): (n: int)
    ensures ParseInt(value).None? ==> n == 0
    ensures ParseInt(value).Some? ==> n == ParseInt(value).value
  {
    match ParseInt(value)
    case Some(n) => n
    case None => 0
  }

  /** A typed number is read back as itself, negative ones included (a negative count takes classes away). */
  lemma CountRoundTrip(n: nat)
    ensures CountOf(NatToString(n)) == n
    ensures CountOf("-" + NatToString(n)) == -(n as int)
  {
    ParseIntRoundTrip(n);
    NatToStringRoundTrip(n);
    ParseIntNegative(NatToString(n));
  }

  /** What `confirmClassesUpdate` does. */
  datatype Outcome = NoStudent | Refused(message: string) | Request(userId: string, adjustment: Adjustment)

  /** `confirmClassesUpdate`: nothing without a student, then the dance type, a non-zero count and a reason, in that order. */
  function Confirm(current: Option<Student>, a: Adjustment): (o: Outcome)
  {
    if current.None? then NoStudent
    else if a.danceType == "" then Refused("请选择舞种")
    else if a.count == 0 then Refused("请输入调整次数")
    else if a.reason == "" then Refused("请输入调整原因")
    else Request(current.value.userId, a)
  }

  /** The request goes out exactly for a student with a type, a non-zero count and a reason, and carries the dialog's values unchanged. */
  lemma ConfirmSendsCompleteAdjustments(current: Option<Student>, a: Adjustment)
    ensures Confirm(current, a).Request? <==> current.Some? && a.danceType != "" && a.count != 0 && a.reason != ""
    ensures Confirm(current, a).Request? ==> Confirm(current, a) == Request(current.value.userId, a)
  {
  }

  /** Text that is not a number is caught by the count check. */
  lemma UnreadableCountRefused(s: Student, danceType: string, value: string, reason: string)
    requires danceType != "" && ParseInt(value).None?
    ensures Confirm(Some(s), Adjustment(danceType, CountOf(value), reason)) == Refused("请输入调整次数")
  {
  }

  /** A freshly opened dialog is refused for its missing dance type. */
  lemma FreshDialogRefused(s: Student)
    ensures Confirm(Some(s), NoAdjustment) == Refused("请选择舞种")
  {
  }

  /** The dialog's part of the page's data: whether it shows, the student it is for and the values typed. */
  datatype Dialog = Dialog(open: bool, current: Option<Student>, data: Adjustment)

  /** `showClassesModal`: the student, the dialog open and the values cleared. */
  function ShowClasses(s: Student): (d: Dialog)
  {
    Dialog(true, Some(s), NoAdjustment)
  }

  /** `hideClassesModal`: the dialog closed, the student forgotten and the values cleared. */
  function HideClasses(d: Dialog): (r: Dialog)
  {
    Dialog(false, None, NoAdjustment)
  }

  /** `onDanceTypeChange`, `onCountInput` and `onReasonInput`: one value of the dialog each. */
  function TypeChange(d: Dialog, index: nat): (r: Dialog)
    requires index < |PickerTypes|
  {
    d.(data := d.data.(danceType := PickerTypes[index].0))
  }

  function CountInput(d: Dialog, value: string): (r: Dialog)
  {
    d.(data := d.data.(count := CountOf(value)))
  }

  function ReasonInput(d: Dialog, reason: string): (r: Dialog)
  {
    d.(data := d.data.(reason := reason))
  }

  /** `confirmClassesUpdate` on the dialog: a request that succeeds hides it; anything else leaves it as it is. */
  function ConfirmDialog(d: Dialog, requestOk: bool): (r: (Outcome, Dialog))
  {
    var o := Confirm(d.current, d.data);
    (o, if o.Request? && requestOk then HideClasses(d) else d)
  }

  /**
   * A dialog filled in with a type, a non-zero count and a reason sends
   * exactly those values for its student; once the request succeeds the
   * dialog has forgotten the student, so confirming again sends nothing.
   */
  lemma FilledDialogSendsOnce(s: Student, index: nat, n: nat, reason: string, requestOk: bool)
    requires index < |PickerTypes| && n != 0 && reason != ""
    ensures var d := ReasonInput(CountInput(TypeChange(ShowClasses(s), index), NatToString(n)), reason);
      ConfirmDialog(d, requestOk).0 == Request(s.userId, Adjustment(PickerTypes[index].0, n, reason))
      && (requestOk ==> !ConfirmDialog(d, requestOk).1.open && ConfirmDialog(ConfirmDialog(d, requestOk).1, requestOk).0 == NoStudent)
      && (!requestOk ==> ConfirmDialog(d, requestOk).1 == d)
  {
    FilledDialogHolds(s, index, n, reason);
    PickerTypesNamed(index);
    ConfirmComplete(s, Adjustment(PickerTypes[index].0, n, reason), requestOk);
  }

  /**
   * `confirmClassesUpdate` as written: it calls `adminApi.updateStudentClasses`,
   * which the mock server's `adminApi` lacks, so the `catch` runs and the
   * dialog is never hidden.
   */
  function ConfirmDialogAsWritten(d: Dialog, requestOk: bool): (r: (Outcome, Dialog))
  {
    ConfirmDialog(d, MockApi.AdminCallAnswers("updateStudentClasses", requestOk))
  }

  /** As written, confirming never closes the dialog, so a filled dialog can be confirmed again with the same values. */
  lemma ConfirmNeverCloses(d: Dialog, requestOk: bool)
    ensures ConfirmDialogAsWritten(d, requestOk).1 == d
    ensures ConfirmDialogAsWritten(d, requestOk).0 == Confirm(d.current, d.data)
    ensures ConfirmDialogAsWritten(ConfirmDialogAsWritten(d, requestOk).1, requestOk).0 == ConfirmDialogAsWritten(d, requestOk).0
    ensures ConfirmDialog(d, true).0.Request? ==> !ConfirmDialog(d, true).1.open
  {
    MockApi.MissingAdminMethods(requestOk);
  }

  /** Confirming an open dialog with complete values sends them; success closes the dialog and forgets the student. */
  lemma ConfirmComplete(s: Student, a: Adjustment, requestOk: bool)
    requires a.danceType != "" && a.count != 0 && a.reason != ""
    ensures var d := Dialog(true, Some(s), a);
      ConfirmDialog(d, requestOk).0 == Request(s.userId, a)
      && (requestOk ==> !ConfirmDialog(d, requestOk).1.open && ConfirmDialog(ConfirmDialog(d, requestOk).1, requestOk).0 == NoStudent)
      && (!requestOk ==> ConfirmDialog(d, requestOk).1 == d)
  {
  }

  /** Filling in the three values of a freshly shown dialog leaves exactly those values in it. */
  lemma FilledDialogHolds(s: Student, index: nat, n: nat, reason: string)
    requires index < |PickerTypes|
    ensures ReasonInput(CountInput(TypeChange(ShowClasses(s), index), NatToString(n)), reason)
      == Dialog(true, Some(s), Adjustment(PickerTypes[index].0, n, reason))
  {
    CountRoundTrip(n);
  }

  /** Every picker entry names a dance type. */
  lemma PickerTypesNamed(index: nat)
    requires index < |PickerTypes|
    ensures PickerTypes[index].0 != ""
  {
  }

  /** A hidden dialog sends nothing, whatever is typed into it afterwards. */
  lemma HiddenDialogSendsNothing(d: Dialog, value: string, reason: string, requestOk: bool)
    ensures ConfirmDialog(ReasonInput(CountInput(HideClasses(d), value), reason), requestOk).0 == NoStudent
  {
  }

  // ---------------------------------------------------------------------
  // Class counts.

  /** `getDanceTypeName`: the picker's name for the id, or the id itself. */
  function DanceTypeName(id: string): (r: string)
  {
    match Find(PickerTypes, (t: (string, string)) => t.0 == id)
    case Some(t) => t.1
    case None => id
  }

  /** The student page names dance types as the teacher-management table does. */
  lemma NamesAgreeWithManagement(id: string)
    ensures DanceTypeName(id) == DanceTypes.NameOf(DanceTypes.ManageNames, id)
  {
    var p := (t: (string, string)) => t.0 == id;
    match FindIndex(PickerTypes, p)
    case None =>
      if id in DanceTypes.ManageNames {
        var i := ManagedIsPicked(id);
        assert false;
      }
    case Some(i) =>
      PickerNamedAsManaged(i);
  }

  /** Entry `i` of the picker carries the name the management table gives its id. */
  lemma PickerNamedAsManaged(i: nat)
    requires i < |PickerTypes|
    ensures PickerTypes[i].0 in DanceTypes.ManageNames
    ensures DanceTypes.ManageNames[PickerTypes[i].0] == PickerTypes[i].1 != ""
  {
  }

  /** Every id the management table names is one of the picker's. */
  lemma ManagedIsPicked(id: string) returns (i: nat)
    requires id in DanceTypes.ManageNames
    ensures i < |PickerTypes| && PickerTypes[i].0 == id
  {
    i := if id == "jazz" then 0 else if id == "kpop" then 1 else if id == "hiphop" then 2 else if id == "waacking" then 3 else 4;
  }

  datatype ClassCount = ClassCount(danceType: string, count: int, name: string)

  /** `getStudentClasses`: one row per entry of the counts, in their order; none when the student has no counts. */
  function StudentClasses(s: Student): (r: seq<ClassCount>)
  {
    match s.remainingClasses
    case None => []
    case Some(entries) =>
      seq(|entries|, i requires 0 <= i < |entries| => ClassCount(entries[i].0, entries[i].1, DanceTypeName(entries[i].0)))
  }

  /** Each row keeps its entry's type and count and names the type; nothing is added or lost. */
  lemma StudentClassesRows(s: Student)
    ensures s.remainingClasses.None? ==> StudentClasses(s) == []
    ensures s.remainingClasses.Some? ==> |StudentClasses(s)| == |s.remainingClasses.value|
    ensures s.remainingClasses.Some? ==> forall i :: 0 <= i < |StudentClasses(s)| ==>
      StudentClasses(s)[i] == ClassCount(s.remainingClasses.value[i].0, s.remainingClasses.value[i].1,
                                         DanceTypes.NameOf(DanceTypes.ManageNames, s.remainingClasses.value[i].0))
  {
    if s.remainingClasses.Some? {
      forall i | 0 <= i < |StudentClasses(s)|
        ensures StudentClasses(s)[i].name == DanceTypes.NameOf(DanceTypes.ManageNames, s.remainingClasses.value[i].0)
      {
        NamesAgreeWithManagement(s.remainingClasses.value[i].0);
      }
    }
  }
}
