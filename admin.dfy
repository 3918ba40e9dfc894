/**
 * The back office's record rules: payment approval and rejection, course and
 * category maintenance, the settings form, the masked gift code repair and
 * the upload file-name check.  Each route is a method on the shared
 * `RecordStore`, specified by a function on the tables it leaves behind.
 */
module Admin {
  import opened Wrappers
  import opened Strings
  import opened Models
  import opened Store

  // ------------------------------------------------------------ approvals

  /** Whether approval marks the details as redeemed: a gift payment with non-empty details. */
  predicate MarksRedeemed(p: Payment) {
    p.paymentMethod == "gift" && p.details.Some? && p.details.value != []
  }

  /**
   * `approve_payment` on one row: approved and stamped whatever the previous
   * status, and a gift payment's details get the redemption suffix each time.
   */
  function Approve(p: Payment, now: Timestamp): (q: Payment)
    ensures q.status == Approved && q.approvalDate == Some(now)
    ensures MarksRedeemed(p) ==> q.details == Some(p.details.value + RedeemedSuffix)
    ensures !MarksRedeemed(p) ==> q.details == p.details
    ensures q.(status := p.status, approvalDate := p.approvalDate, details := p.details) == p
  {
    var q := p.(status := Approved, approvalDate := Some(now));
    if MarksRedeemed(p) then q.(details := Some(p.details.value + RedeemedSuffix)) else q
  }

  /** `reject_payment` on one row: only the status changes. */
  function Reject(p: Payment): (q: Payment)
    ensures q.status == Rejected && q.(status := p.status) == p
  {
    p.(status := Rejected)
  }

  /** A payment approved once for each instant in `times`, in order. */
  function ApprovedAt(p: Payment, times: seq<Timestamp>): Payment
    decreases |times|
  {
    if |times| == 0 then p else ApprovedAt(Approve(p, times[0]), times[1..])
  }

  /** Every approval of a gift payment appends one more redemption suffix. */
  lemma ApprovalsAppendSuffixes(p: Payment, d: string, times: seq<Timestamp>)
    requires p.paymentMethod == "gift" && p.details == Some(GiftDetails(d))
    ensures ApprovedAt(p, times).details == Some(GiftDetails(d) + Redeemed(|times|))
    ensures |times| > 0 ==> ApprovedAt(p, times).status == Approved
  {
    ApprovedAtGeneral(p, times);
  }

  lemma {:induction false} ApprovedAtGeneral(p: Payment, times: seq<Timestamp>)
    requires MarksRedeemed(p)
    ensures ApprovedAt(p, times).details == Some(p.details.value + Redeemed(|times|))
    ensures |times| > 0 ==> ApprovedAt(p, times).status == Approved
    decreases |times|
  {
    if |times| == 0 {
      assert p.details.value + [] == p.details.value;
    } else {
      var q := Approve(p, times[0]);
      var d, n := p.details.value, |times| - 1;
      ApprovedAtFirst(p, times);
      ApprovedAtGeneral(q, times[1..]);
      calc {
        ApprovedAt(p, times).details;
        ApprovedAt(q, times[1..]).details;
        Some(q.details.value + Redeemed(n));
        Some(d + RedeemedSuffix + Redeemed(n));
        { ConcatAssoc(d, RedeemedSuffix, Redeemed(n)); }
        Some(d + (RedeemedSuffix + Redeemed(n)));
        { assert Redeemed(n + 1) == RedeemedSuffix + Redeemed(n); }
        Some(d + Redeemed(|times|));
      }
    }
  }

  lemma ApprovedAtFirst(p: Payment, times: seq<Timestamp>)
    requires |times| > 0
    ensures ApprovedAt(p, times) == ApprovedAt(Approve(p, times[0]), times[1..])
  {}

  /** Approving twice appends the suffix twice. */
  lemma ApproveTwiceAppendsTwice(p: Payment, first: Timestamp, second: Timestamp)
    requires MarksRedeemed(p)
    ensures Approve(Approve(p, first), second).details == Some(p.details.value + RedeemedSuffix + RedeemedSuffix)
    ensures Approve(Approve(p, first), second).approvalDate == Some(second)
  {}

  /**
   * However many times a submitted gift payment is approved, its gift card
   * code is still the code the user typed.
   */
  lemma ApprovalsKeepGiftCode(c: string, p: Payment, times: seq<Timestamp>)
    requires Trimmed(c) && !Contains(c, GiftMarker) && !Contains(c, RedeemedMarker)
    requires p.paymentMethod == "gift" && p.details == Some(GiftDetails(c))
    ensures GiftCardCode(ApprovedAt(p, times).paymentMethod, ApprovedAt(p, times).details) == Some(c)
  {
    ApprovalsAppendSuffixes(p, c, times);
    ApprovedAtKeepsMethod(p, times);
    GiftCodeRoundTrip(c, |times|);
  }

  lemma {:induction false} ApprovedAtKeepsMethod(p: Payment, times: seq<Timestamp>)
    ensures ApprovedAt(p, times).paymentMethod == p.paymentMethod
    ensures ApprovedAt(p, times).amount == p.amount
    ensures ApprovedAt(p, times).courseId == p.courseId && ApprovedAt(p, times).userId == p.userId
    decreases |times|
  {
    if |times| > 0 {
      ApprovedAtKeepsMethod(Approve(p, times[0]), times[1..]);
    }
  }

  /** There is no status guard: a rejected payment can still be approved. */
  lemma RejectedCanBeApproved(p: Payment, now: Timestamp)
    ensures Approve(Reject(p), now).status == Approved
    ensures Approve(Reject(p), now).approvalDate == Some(now)
  {}

  /** `approve_payment(id)` on the tables: unknown ids change nothing. */
  function ApproveIn(t: Tables, id: int, now: Timestamp): Tables {
    if id in t.payments then t.(payments := t.payments[id := Approve(t.payments[id], now)]) else t
  }

  function RejectIn(t: Tables, id: int): Tables {
    if id in t.payments then t.(payments := t.payments[id := Reject(t.payments[id])]) else t
  }

  lemma ApproveRejectKeepConsistent(t: Tables, id: int, now: Timestamp)
    requires Consistent(t)
    ensures Consistent(ApproveIn(t, id, now)) && Consistent(RejectIn(t, id))
    ensures ApproveIn(t, id, now).payments.Keys == t.payments.Keys == RejectIn(t, id).payments.Keys
  {
    if id in t.payments {
      assert Approve(t.payments[id], now).courseId == t.payments[id].courseId;
      assert Reject(t.payments[id]).userId == t.payments[id].userId;
    }
  }

  /** `approve_payment`: reports whether the payment exists; no notification is sent. */
  method ApprovePayment(db: RecordStore, paymentId: int, now: Timestamp) returns (found: bool)
    requires db.Valid()
    modifies db
    ensures db.Valid()
    ensures found <==> paymentId in old(db.payments)
    ensures db.Snapshot() == ApproveIn(old(db.Snapshot()), paymentId, now)
  {
    ApproveRejectKeepConsistent(db.Snapshot(), paymentId, now);
    found := paymentId in db.payments;
    if found {
      var payment := db.payments[paymentId];
      payment := payment.(status := Approved);
      payment := payment.(approvalDate := Some(now));
      if payment.paymentMethod == "gift" && payment.details.Some? && payment.details.value != [] {
        payment := payment.(details := Some(payment.details.value + RedeemedSuffix));
      }
      db.payments := db.payments[paymentId := payment];
    }
  }

  /** `reject_payment`: reports whether the payment exists. */
  method RejectPayment(db: RecordStore, paymentId: int) returns (found: bool)
    requires db.Valid()
    modifies db
    ensures db.Valid()
    ensures found <==> paymentId in old(db.payments)
    ensures db.Snapshot() == RejectIn(old(db.Snapshot()), paymentId)
  {
    ApproveRejectKeepConsistent(db.Snapshot(), paymentId, 0);
    found := paymentId in db.payments;
    if found {
      db.payments := db.payments[paymentId := db.payments[paymentId].(status := Rejected)];
    }
  }

  // ------------------------------------------------------------- deletions

  datatype DeleteOutcome = NotFound | Refused(paymentCount: nat) | Deleted

  function PaymentsFor(t: Tables, courseId: int): set<int> {
    set id | id in t.payments && t.payments[id].courseId == courseId
  }

  /** `delete_course` on the tables. */
  function DeleteCourseIn(t: Tables, courseId: int): Tables {
    if courseId in t.courses && |PaymentsFor(t, courseId)| == 0 then t.(courses := t.courses - {courseId}) else t
  }

  /** The payment-count guard is what keeps every payment's course in place. */
  lemma DeleteCourseKeepsConsistent(t: Tables, courseId: int)
    requires Consistent(t)
    ensures Consistent(DeleteCourseIn(t, courseId))
  {
    if courseId in t.courses && |PaymentsFor(t, courseId)| == 0 {
      assert PaymentsFor(t, courseId) == {};
      forall id | id in t.payments
        ensures t.payments[id].courseId != courseId
      {
        assert id !in PaymentsFor(t, courseId);
      }
    }
  }

  /** `delete_course`: refused while any payment refers to the course. */
  method DeleteCourse(db: RecordStore, courseId: int) returns (outcome: DeleteOutcome)
    requires db.Valid()
    modifies db
    ensures db.Valid()
    ensures outcome == NotFound <==> courseId !in old(db.courses)
    ensures outcome.Refused? <==> courseId in old(db.courses) && |PaymentsFor(old(db.Snapshot()), courseId)| > 0
    ensures outcome.Refused? ==> outcome.paymentCount == |PaymentsFor(old(db.Snapshot()), courseId)|
    ensures db.Snapshot() == DeleteCourseIn(old(db.Snapshot()), courseId)
    ensures outcome == Deleted <==> courseId in old(db.courses) && courseId !in db.courses
  {
    DeleteCourseKeepsConsistent(db.Snapshot(), courseId);
    if courseId !in db.courses {
      return NotFound;
    }
    var count := |set id | id in db.payments && db.payments[id].courseId == courseId|;
    assert count == |PaymentsFor(db.Snapshot(), courseId)|;
    if count > 0 {
      return Refused(count);
    }
    db.courses := db.courses - {courseId};
    return Deleted;
  }

  function Unassign(c: Course, categoryId: int): Course {
    if c.categoryId == Some(categoryId) then c.(categoryId := None) else c
  }

  /** Every course, with its category cleared where it was `categoryId`. */
  function UnassignAll(courses: map<int, Course>, categoryId: int): (r: map<int, Course>)
    ensures r.Keys == courses.Keys
  {
    map id | id in courses :: Unassign(courses[id], categoryId)
  }

  /** `delete_category` on the tables. */
  function DeleteCategoryIn(t: Tables, categoryId: int): Tables {
    if categoryId in t.categories then
      t.(courses := UnassignAll(t.courses, categoryId), categories := t.categories - {categoryId})
    else t
  }

  /**
   * Deleting a category deletes no course, leaves no course pointing at it,
   * changes no other field of any course, and keeps the database consistent.
   */
  lemma DeleteCategoryFacts(t: Tables, categoryId: int)
    requires Consistent(t)
    ensures var t' := DeleteCategoryIn(t, categoryId);
      && Consistent(t')
      && t'.courses.Keys == t.courses.Keys
      && (categoryId in t.categories ==> forall id :: id in t'.courses ==> t'.courses[id].categoryId != Some(categoryId))
      && (forall id :: id in t'.courses ==> t'.courses[id].(categoryId := t.courses[id].categoryId) == t.courses[id])
      && categoryId !in t'.categories
  {
    var t' := DeleteCategoryIn(t, categoryId);
    if categoryId in t.categories {
      forall id | id in t'.courses
        ensures t'.courses[id].isFree || t'.courses[id].price > 0.0
      {
        assert t'.courses[id].price == t.courses[id].price && t'.courses[id].isFree == t.courses[id].isFree;
      }
    }
  }

  /** The loop of `delete_category` that clears the category of each course filed under it. */
  method ClearCategory(courses: map<int, Course>, categoryId: int) returns (r: map<int, Course>)
    ensures r == UnassignAll(courses, categoryId)
  {
    r := courses;
    var toUpdate := set id | id in courses && courses[id].categoryId == Some(categoryId);
    while true
      invariant toUpdate <= courses.Keys
      invariant r.Keys == courses.Keys
      invariant forall id :: id in courses ==> r[id] == if id in toUpdate then courses[id] else Unassign(courses[id], categoryId)
      invariant forall id :: id in toUpdate ==> courses[id].categoryId == Some(categoryId)
      decreases toUpdate
    {
      if id :| id in toUpdate {
        r := r[id := r[id].(categoryId := None)];
        toUpdate := toUpdate - {id};
      } else {
        break;
      }
    }
    assert forall id :: id in courses ==> r[id] == Unassign(courses[id], categoryId);
  }

  /** `delete_category`: the courses filed under it lose their category, then the category goes. */
  method DeleteCategory(db: RecordStore, categoryId: int) returns (found: bool)
    requires db.Valid()
    modifies db
    ensures db.Valid()
    ensures found <==> categoryId in old(db.categories)
    ensures db.Snapshot() == DeleteCategoryIn(old(db.Snapshot()), categoryId)
  {
    DeleteCategoryFacts(db.Snapshot(), categoryId);
    found := categoryId in db.categories;
    if !found {
      return;
    }
    var courses := ClearCategory(db.courses, categoryId);
    db.courses := courses;
    db.categories := db.categories - {categoryId};
  }

  // ---------------------------------------------------------- course forms

  /** The upload file extensions the back office accepts. */
  const AllowedExtensions: set<string> := {"png", "jpg", "jpeg", "gif", "webp"}

  /** The text after the last `.` of a name that has one (`rsplit('.', 1)[1]`). */
  function Extension(name: string): (ext: string)
    requires '.' in name
    ensures |ext| < |name| && name[|name| - |ext| - 1] == '.' && name[|name| - |ext|..] == ext && '.' !in ext
    decreases |name|
  {
    if name[|name| - 1] == '.' then []
    else
      assert '.' in name[..|name| - 1] by {
        var i :| 0 <= i < |name| && name[i] == '.';
        assert name[..|name| - 1][i] == '.';
      }
      var ext := Extension(name[..|name| - 1]);
      assert name[..|name| - 1][|name| - 1 - |ext|..] == ext;
      ext + [name[|name| - 1]]
  }

  /** `allowed_file`. */
  predicate AllowedFile(filename: string) {
    '.' in filename && PyLower(Extension(filename)) in AllowedExtensions
  }

  /**
   * A name is allowed exactly when it has a `.` with no `.` after it and the
   * lowercased text after that `.` is an allowed extension.
   */
  lemma AllowedFileIff(filename: string)
    ensures AllowedFile(filename) <==>
      exists k :: 0 <= k < |filename| && filename[k] == '.' && '.' !in filename[k + 1..]
        && PyLower(filename[k + 1..]) in AllowedExtensions
  {
    if AllowedFile(filename) {
      var ext := Extension(filename);
      var k := |filename| - |ext| - 1;
      assert filename[k + 1..] == ext;
    }
    if exists k :: 0 <= k < |filename| && filename[k] == '.' && '.' !in filename[k + 1..]
        && PyLower(filename[k + 1..]) in AllowedExtensions {
      var k :| 0 <= k < |filename| && filename[k] == '.' && '.' !in filename[k + 1..]
        && PyLower(filename[k + 1..]) in AllowedExtensions;
      assert '.' in filename;
      LastDotUnique(filename, k);
    }
  }

  /** There is only one `.` with no `.` after it. */
  lemma LastDotUnique(filename: string, k: int)
    requires 0 <= k < |filename| && filename[k] == '.' && '.' !in filename[k + 1..]
    ensures filename[k + 1..] == Extension(filename)
  {
    var ext := Extension(filename);
    var j := |filename| - |ext| - 1;
    NoDotAfter(filename, j + 1);
    NoDotAfter(filename, k + 1);
  }

  lemma NoDotAfter(s: string, a: int)
    requires 0 <= a <= |s| && '.' !in s[a..]
    ensures forall b :: a <= b < |s| ==> s[b] != '.'
  {
    forall b | a <= b < |s|
      ensures s[b] != '.'
    {
      assert s[a..][b - a] == s[b];
    }
  }

  /** What the course form posts; `None` is a missing field, and a price or category that does not parse. */
  datatype CourseForm = CourseForm(
    title: Option<string>,
    description: Option<string>,
    /** `float(price)`; `None` when the text is missing or not a number (the non-finite `inf` and `nan` are not modelled). */
    price: Option<real>,
    fileLink: Option<string>,
    category: Option<string>,
    imageLink: Option<string>,
    paymentOptions: seq<string>,
    qrCodeImage: Option<string>,
    isFree: bool,
    demoVideoLink: Option<string>,
    isActive: bool,
    /** The name of an uploaded image, when one with a non-empty name was sent. */
    upload: Option<string>)

  datatype FormOutcome = Saved(id: int) | NotFoundForm | Invalid | BadUpload | Crashed

  /** `x if x else None`. */
  function BlankToNone(s: Option<string>): (r: Option<string>)
    ensures r == None || (r == s && s.value != [])
  {
    if s.Some? && s.value == [] then None else s
  }

  function NonEmpty(s: Option<string>): bool {
    s.Some? && s.value != []
  }

  /** The stored payment options: the checked names joined by `,`, or `None` when none is checked. */
  function OptionsText(options: seq<string>): (r: Option<string>)
    ensures r == None <==> options == []
  {
    if options == [] then None else Some(Join(options, ','))
  }

  /** Each checked payment option comes back from the stored text. */
  lemma OptionsTextRoundTrip(options: seq<string>)
    requires options != [] && forall k :: 0 <= k < |options| ==> ',' !in options[k]
    ensures Split(OptionsText(options).value, ',') == options
  {
    SplitJoin(options, ',');
  }

  /** `int(category_id) if category_id else None`; `None` outer when `int()` raises. */
  function CategoryField(text: Option<string>): Option<Option<int>> {
    if !NonEmpty(text) then Some(None)
    else match ParseInt(text.value)
      case Some(n) => Some(Some(n))
      case None => None
  }

  /** `add_course` refuses a missing title, a missing file link and a non-free course without a positive price. */
  predicate AddFormValid(form: CourseForm)
    requires form.price.Some?
  {
    NonEmpty(form.title) && NonEmpty(form.fileLink) && (form.isFree || form.price.value > 0.0)
  }

  /** The course `add_course` inserts; `uploadUrl` is the address of the saved upload. */
  function NewCourse(form: CourseForm, category: Option<int>, uploadUrl: string): Course
    requires form.price.Some? && AddFormValid(form)
  {
    Course(form.title.value, form.description, form.price.value, form.fileLink.value, category,
           if form.upload.Some? then Some(uploadUrl) else form.imageLink,
           BlankToNone(form.qrCodeImage), form.isFree, BlankToNone(form.demoVideoLink), true,
           OptionsText(form.paymentOptions))
  }

  /** `add_course`. */
  method AddCourse(db: RecordStore, form: CourseForm, uploadUrl: string) returns (outcome: FormOutcome)
    requires db.Valid()
    modifies db
    ensures db.Valid()
    ensures outcome.Saved? <==>
      form.price.Some? && CategoryField(form.category).Some? && AddFormValid(form)
      && (form.upload.Some? ==> AllowedFile(form.upload.value))
    ensures outcome.Saved? ==>
      db.Snapshot() == InsertCourse(old(db.Snapshot()), NewCourse(form, CategoryField(form.category).value, uploadUrl))
      && outcome.id == old(db.nextCourse) && outcome.id !in old(db.courses)
    ensures !outcome.Saved? ==> db.Snapshot() == old(db.Snapshot())
    ensures outcome == Invalid <==> form.price.Some? && CategoryField(form.category).Some? && !AddFormValid(form)
  {
    if form.price.None? {
      return Crashed;
    }
    var category := CategoryField(form.category);
    if category.None? {
      return Crashed;
    }
    if !NonEmpty(form.title) || !NonEmpty(form.fileLink) || (!form.isFree && form.price.value <= 0.0) {
      return Invalid;
    }
    if form.upload.Some? && !AllowedFile(form.upload.value) {
      return BadUpload;
    }
    var course := NewCourse(form, category.value, uploadUrl);
    var id := db.nextCourse;
    db.courses := db.courses[id := course];
    db.nextCourse := id + 1;
    return Saved(id);
  }

  /** The course as `edit_course` leaves it after a successful commit. */
  function EditedCourse(old_: Course, form: CourseForm, category: Option<int>, uploadUrl: string): Course
    requires form.price.Some? && form.title.Some? && form.fileLink.Some?
  {
    Course(form.title.value, form.description, form.price.value, form.fileLink.value, category,
           if form.upload.Some? then Some(uploadUrl) else if NonEmpty(form.imageLink) then form.imageLink else old_.imageLink,
           BlankToNone(form.qrCodeImage), form.isFree, BlankToNone(form.demoVideoLink), form.isActive,
           OptionsText(form.paymentOptions))
  }

  /**
   * `edit_course`: only the price is validated; a missing title or file link
   * fails at commit (the columns are not nullable) but an empty one is saved.
   */
  method EditCourse(db: RecordStore, courseId: int, form: CourseForm, uploadUrl: string) returns (outcome: FormOutcome)
    requires db.Valid()
    modifies db
    ensures db.Valid()
    ensures outcome == NotFoundForm <==> courseId !in old(db.courses)
    ensures outcome == Invalid <==>
      courseId in old(db.courses) && form.price.Some? && CategoryField(form.category).Some?
      && !form.isFree && form.price.value <= 0.0
    ensures outcome.Saved? <==>
      courseId in old(db.courses) && form.price.Some? && CategoryField(form.category).Some?
      && (form.isFree || form.price.value > 0.0) && (form.upload.Some? ==> AllowedFile(form.upload.value))
      && form.title.Some? && form.fileLink.Some?
    ensures outcome.Saved? ==> (outcome.id == courseId &&
      db.Snapshot() == old(db.Snapshot()).(courses := old(db.courses)[courseId :=
        EditedCourse(old(db.courses)[courseId], form, CategoryField(form.category).value, uploadUrl)]))
    ensures !outcome.Saved? ==> db.Snapshot() == old(db.Snapshot())
  {
    if courseId !in db.courses {
      return NotFoundForm;
    }
    var course := db.courses[courseId];
    if form.price.None? {
      return Crashed;
    }
    var category := CategoryField(form.category);
    if category.None? {
      return Crashed;
    }
    if !form.isFree && form.price.value <= 0.0 {
      return Invalid;
    }
    if form.upload.Some? && !AllowedFile(form.upload.value) {
      return BadUpload;
    }
    if form.title.None? || form.fileLink.None? {
      return Crashed;
    }
    db.courses := db.courses[courseId := EditedCourse(course, form, category.value, uploadUrl)];
    return Saved(courseId);
  }

  // ------------------------------------------------------------ categories

  /** Another category (not `except`) has this name under SQL's `lower()`. */
  predicate NameTaken(categories: map<int, Category>, name: string, except: Option<int>) {
    exists id :: id in categories && Some(id) != except && Lower(categories[id].name) == Lower(name)
  }

  /** `add_category`. */
  method AddCategory(db: RecordStore, name: Option<string>) returns (outcome: FormOutcome)
    requires db.Valid()
    modifies db
    ensures db.Valid()
    ensures outcome == Invalid <==> !NonEmpty(name) || NameTaken(old(db.categories), name.value, None)
    ensures outcome.Saved? <==> outcome != Invalid
    ensures outcome.Saved? ==> (outcome.id == old(db.nextCategory) &&
      db.Snapshot() == InsertCategory(old(db.Snapshot()), Category(name.value)))
    ensures !outcome.Saved? ==> db.Snapshot() == old(db.Snapshot())
  {
    if !NonEmpty(name) {
      return Invalid;
    }
    if existing :| existing in db.categories && Lower(db.categories[existing].name) == Lower(name.value) {
      return Invalid;
    }
    var id := db.nextCategory;
    db.categories := db.categories[id := Category(name.value)];
    db.nextCategory := id + 1;
    return Saved(id);
  }

  /** `edit_category`: the name may stay the same up to case, since the row itself is excluded. */
  method EditCategory(db: RecordStore, categoryId: int, name: Option<string>) returns (outcome: FormOutcome)
    requires db.Valid()
    modifies db
    ensures db.Valid()
    ensures outcome == NotFoundForm <==> categoryId !in old(db.categories)
    ensures outcome == Invalid <==>
      categoryId in old(db.categories) && (!NonEmpty(name) || NameTaken(old(db.categories), name.value, Some(categoryId)))
    ensures outcome.Saved? <==> outcome != Invalid && outcome != NotFoundForm
    ensures outcome.Saved? ==> (outcome.id == categoryId &&
      db.Snapshot() == old(db.Snapshot()).(categories := old(db.categories)[categoryId := Category(name.value)]))
    ensures !outcome.Saved? ==> db.Snapshot() == old(db.Snapshot())
  {
    if categoryId !in db.categories {
      return NotFoundForm;
    }
    if !NonEmpty(name) {
      return Invalid;
    }
    if existing :| existing in db.categories && existing != categoryId
                   && Lower(db.categories[existing].name) == Lower(name.value) {
      return Invalid;
    }
    db.categories := db.categories[categoryId := Category(name.value)];
    return Saved(categoryId);
  }

  // -------------------------------------------------------------- settings

  /** The settings the form manages. */
  const SettingsKeys: seq<string> := ["dmca_policy_text"]

  ghost predicate HasSetting(t: Tables, key: string) {
    exists id :: id in t.settings && t.settings[id].key == key
  }

  /** Set the value of the setting `key`, inserting the row when there is none. */
  ghost function Upsert(t: Tables, key: string, value: string): Tables {
    if HasSetting(t, key) then
      var id :| id in t.settings && t.settings[id].key == key;
      t.(settings := t.settings[id := BotSetting(key, Some(value))])
    else InsertSetting(t, BotSetting(key, Some(value)))
  }

  /**
   * An upsert keeps keys unique, leaves exactly one row with the key holding
   * the value, and changes no row with another key.
   */
  lemma UpsertFacts(t: Tables, key: string, value: string)
    requires Consistent(t)
    ensures var t' := Upsert(t, key, value);
      && Consistent(t')
      && (exists id :: id in t'.settings && t'.settings[id] == BotSetting(key, Some(value)))
      && (forall id :: id in t.settings && t.settings[id].key != key ==> id in t'.settings && t'.settings[id] == t.settings[id])
      && t' == t.(settings := t'.settings, nextSetting := t'.nextSetting)
  {
    if HasSetting(t, key) {
      var id :| id in t.settings && t.settings[id].key == key;
      assert Upsert(t, key, value).settings[id] == BotSetting(key, Some(value));
    } else {
      var t' := InsertSetting(t, BotSetting(key, Some(value)));
      assert t'.settings[t.nextSetting] == BotSetting(key, Some(value));
    }
  }

  /** Saving the same value twice is the same as saving it once. */
  lemma UpsertIdempotent(t: Tables, key: string, value: string)
    requires Consistent(t)
    ensures Upsert(Upsert(t, key, value), key, value) == Upsert(t, key, value)
  {
    var t1 := Upsert(t, key, value);
    assert Consistent(t1) && exists j :: j in t1.settings && t1.settings[j] == BotSetting(key, Some(value)) by {
      UpsertFacts(t, key, value);
    }
    var j :| j in t1.settings && t1.settings[j] == BotSetting(key, Some(value));
    UpsertExisting(t1, key, value, j);
    assert t1.settings[j := BotSetting(key, Some(value))] == t1.settings;
  }

  /** With keys unique, the row the upsert finds is the one row holding the key. */
  lemma UpsertExisting(t: Tables, key: string, value: string, id: int)
    requires Consistent(t) && id in t.settings && t.settings[id].key == key
    ensures Upsert(t, key, value) == t.(settings := t.settings[id := BotSetting(key, Some(value))])
  {
    assert HasSetting(t, key);
    var j :| j in t.settings && t.settings[j].key == key;
    assert UniqueSettingKeys(t.settings);
    assert j == id;
  }

  /** The form's effect: an upsert for each managed key the form carries, in order. */
  ghost function SaveSettings(t: Tables, form: map<string, string>, keys: seq<string>): Tables
    decreases |keys|
  {
    if |keys| == 0 then t
    else SaveSettings(if keys[0] in form then Upsert(t, keys[0], form[keys[0]]) else t, form, keys[1..])
  }

  lemma {:induction false} SaveSettingsConsistent(t: Tables, form: map<string, string>, keys: seq<string>)
    requires Consistent(t)
    ensures Consistent(SaveSettings(t, form, keys))
    decreases |keys|
  {
    if |keys| > 0 {
      if keys[0] in form {
        UpsertFacts(t, keys[0], form[keys[0]]);
      }
      SaveSettingsConsistent(if keys[0] in form then Upsert(t, keys[0], form[keys[0]]) else t, form, keys[1..]);
    }
  }

  lemma SaveSettingsStep(t: Tables, form: map<string, string>, keys: seq<string>, i: nat)
    requires i < |keys|
    ensures SaveSettings(t, form, keys[..i + 1]) ==
      (var t1 := SaveSettings(t, form, keys[..i]);
       if keys[i] in form then Upsert(t1, keys[i], form[keys[i]]) else t1)
    decreases i
  {
    if i > 0 {
      assert keys[..i + 1][1..] == keys[1..][..i];
      assert keys[..i][1..] == keys[1..][..i - 1];
      SaveSettingsStep(if keys[0] in form then Upsert(t, keys[0], form[keys[0]]) else t, form, keys[1..], i - 1);
    }
  }

  /** `bot_settings` on a posted form: the upsert loop over the managed keys. */
  method SaveBotSettings(db: RecordStore, form: map<string, string>)
    requires db.Valid()
    modifies db
    ensures db.Valid()
    ensures db.Snapshot() == SaveSettings(old(db.Snapshot()), form, SettingsKeys)
  {
    ghost var start := db.Snapshot();
    for i := 0 to |SettingsKeys|
      invariant db.Valid()
      invariant db.Snapshot() == SaveSettings(start, form, SettingsKeys[..i])
    {
      var key := SettingsKeys[i];
      SaveSettingsStep(start, form, SettingsKeys, i);
      if key in form {
        UpsertSetting(db, key, form[key]);
      }
    }
    assert SettingsKeys[..|SettingsKeys|] == SettingsKeys;
  }

  /** One pass of the loop: the row with the key gets the value, or a new row is added. */
  method UpsertSetting(db: RecordStore, key: string, value: string)
    requires db.Valid()
    modifies db
    ensures db.Valid()
    ensures db.Snapshot() == Upsert(old(db.Snapshot()), key, value)
  {
    UpsertFacts(db.Snapshot(), key, value);
    if id :| id in db.settings && db.settings[id].key == key {
      UpsertExisting(db.Snapshot(), key, value, id);
      db.settings := db.settings[id := db.settings[id].(value := Some(value))];
    } else {
      var id := db.nextSetting;
      db.settings := db.settings[id := BotSetting(key, Some(value))];
      db.nextSetting := id + 1;
    }
  }

  // ------------------------------------------------------ masked gift codes

  const ManualUpdatePrefix: string := "NEEDS MANUAL UPDATE - Was masked: "

  /** A gift payment whose details hold a `*`, the sign of a masked code. */
  predicate Masked(p: Payment) {
    p.paymentMethod == "gift" && p.details.Some? && p.details.value != [] && '*' in p.details.value
  }

  function MarkMasked(p: Payment): (q: Payment)
    ensures Masked(p) ==> q == p.(details := Some(ManualUpdatePrefix + p.details.value))
    ensures !Masked(p) ==> q == p
  {
    if Masked(p) then p.(details := Some(ManualUpdatePrefix + p.details.value)) else p
  }

  function MarkAllMasked(payments: map<int, Payment>): (r: map<int, Payment>)
    ensures r.Keys == payments.Keys
  {
    map id | id in payments :: MarkMasked(payments[id])
  }

  function MaskedIds(payments: map<int, Payment>, among: set<int>): set<int> {
    set id | id in among && id in payments && Masked(payments[id])
  }

  /**
   * The repair is not idempotent: a marked payment still holds its `*`, so
   * running the repair again prefixes it again.
   */
  lemma MarkMaskedNotIdempotent(p: Payment)
    requires Masked(p)
    ensures Masked(MarkMasked(p))
    ensures MarkMasked(MarkMasked(p)).details == Some(ManualUpdatePrefix + ManualUpdatePrefix + p.details.value)
  {
    var d := p.details.value;
    var i :| 0 <= i < |d| && d[i] == '*';
    assert (ManualUpdatePrefix + d)[|ManualUpdatePrefix| + i] == '*';
    assert ManualUpdatePrefix + (ManualUpdatePrefix + d) == ManualUpdatePrefix + ManualUpdatePrefix + d;
  }

  /** Counting one more payment adds it to the masked ones exactly when it is masked. */
  lemma MaskedIdsStep(payments: map<int, Payment>, done: set<int>, id: int)
    requires id in payments && id !in done
    ensures Masked(payments[id]) ==> MaskedIds(payments, done + {id}) == MaskedIds(payments, done) + {id}
    ensures !Masked(payments[id]) ==> MaskedIds(payments, done + {id}) == MaskedIds(payments, done)
    ensures id !in MaskedIds(payments, done)
  {
  }

  /** The payments with those in `done` marked. */
  function MarkAmong(payments: map<int, Payment>, done: set<int>): (r: map<int, Payment>)
    ensures r.Keys == payments.Keys
  {
    map id | id in payments :: if id in done then MarkMasked(payments[id]) else payments[id]
  }

  lemma MarkAmongStep(payments: map<int, Payment>, done: set<int>, id: int)
    requires id in payments && id !in done
    ensures MarkAmong(payments, done)[id] == payments[id]
    ensures MarkAmong(payments, done + {id}) == MarkAmong(payments, done)[id := MarkMasked(payments[id])]
  {
  }

  /** Only gift payments can be masked, so marking the gift payments marks them all. */
  lemma MarkAmongGifts(payments: map<int, Payment>, gifts: set<int>)
    requires forall id :: id in payments && payments[id].paymentMethod == "gift" ==> id in gifts
    ensures MarkAmong(payments, gifts) == MarkAllMasked(payments)
    ensures MaskedIds(payments, gifts) == MaskedIds(payments, payments.Keys)
  {
    forall id | id in payments
      ensures MarkAmong(payments, gifts)[id] == MarkAllMasked(payments)[id]
    {
      if id !in gifts {
        assert !Masked(payments[id]);
      }
    }
    assert MarkAmong(payments, gifts) == MarkAllMasked(payments);
    forall id | id in MaskedIds(payments, payments.Keys)
      ensures id in MaskedIds(payments, gifts)
    {
      assert Masked(payments[id]);
    }
  }

  /** The body of the repair loop for one payment: mark it if its code is masked. */
  method MarkIfMasked(r: map<int, Payment>, id: int) returns (r': map<int, Payment>, marked: bool)
    requires id in r && r[id].paymentMethod == "gift"
    ensures r' == r[id := MarkMasked(r[id])]
    ensures marked <==> Masked(r[id])
  {
    var payment := r[id];
    r', marked := r, false;
    if payment.details.Some? && payment.details.value != [] && '*' in payment.details.value {
      r' := r[id := payment.(details := Some(ManualUpdatePrefix + payment.details.value))];
      marked := true;
    } else {
      assert r[id := MarkMasked(r[id])] == r;
    }
  }

  /**
   * The loop of `fix_gift_codes` over the gift payments: each masked one is
   * marked, and `fixedCount` counts them.
   */
  method MarkMaskedPayments(payments: map<int, Payment>) returns (r: map<int, Payment>, fixedCount: nat)
    ensures r == MarkAllMasked(payments)
    ensures fixedCount == |MaskedIds(payments, payments.Keys)|
  {
    r := payments;
    var giftPayments := set id | id in payments && payments[id].paymentMethod == "gift";
    var remaining := giftPayments;
    fixedCount := 0;
    assert r == MarkAmong(payments, {});
    while true
      invariant remaining <= giftPayments
      invariant r == MarkAmong(payments, giftPayments - remaining)
      invariant fixedCount == |MaskedIds(payments, giftPayments - remaining)|
      decreases remaining
    {
      if id :| id in remaining {
        ghost var done := giftPayments - remaining;
        MarkAmongStep(payments, done, id);
        MaskedIdsStep(payments, done, id);
        var marked;
        r, marked := MarkIfMasked(r, id);
        if marked {
          fixedCount := fixedCount + 1;
        }
        remaining := remaining - {id};
        assert giftPayments - remaining == done + {id};
      } else {
        assert forall id :: id !in remaining;
        assert remaining == {};
        break;
      }
    }
    assert giftPayments - remaining == giftPayments;
    MarkAmongGifts(payments, giftPayments);
  }

  method FixGiftCodes(db: RecordStore) returns (fixedCount: nat)
    requires db.Valid()
    modifies db
    ensures db.Valid()
    ensures db.Snapshot() == old(db.Snapshot()).(payments := MarkAllMasked(old(db.payments)))
    ensures fixedCount == |MaskedIds(old(db.payments), old(db.payments.Keys))|
  {
    ghost var before := db.payments;
    var payments;
    payments, fixedCount := MarkMaskedPayments(db.payments);
    db.payments := payments;
    assert Consistent(db.Snapshot()) by {
      assert forall id :: id in db.payments ==> db.payments[id].courseId == before[id].courseId && db.payments[id].userId == before[id].userId;
    }
  }
}
