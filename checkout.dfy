/**
 * The bot's conversation with one account at a time: the per-user state
 * kept between messages, and what each command, button press, text and
 * photo does to that state, to the database and to the replies sent.
 * Each handler is a function from the chat before to the chat after; the
 * `Bot` class runs the same steps in place.
 */
module Checkout {
  import opened Wrappers
  import opened Strings
  import opened SqlLike
  import opened Models
  import opened Store
  import opened Helpers
  import opened Catalog
  import opened Callbacks
  import Admin

  /** The conversation states a handler can leave an account in. */
  datatype State =
    | Idle
    | AwaitingPassword
    | ViewingCourses
    | SelectingPayment
    | SendingProof
    | SearchingCourses
    | EnteringGiftCode
    | AwaitingCourseRequest

  /**
   * What the bot remembers about an account: its state and the course and
   * payment method remembered by the last payment selection.
   */
  datatype Session = Session(state: State, course: Option<int>, paymentMethod: Option<string>)

  /** The fixed texts a reply can carry. */
  datatype Notice =
    | Welcome | AskPassword | PasswordAccepted | WrongPassword | Help | AskQuery
    | CourseNotFound | CategoryNotFound | CategoryEmpty | NoCategories | NoResults
    | MainMenu | Cancelled | GiftCodeError | GiftCodeSubmitted
    | UnexpectedPhoto | InvalidImage | DuplicateProof | ProofNotSaved | ProofPending
    | RequestPrompt | RequestCancelled | RequestSaved | SpamWarning | NotUnderstood

  /** A reply, by what it shows rather than by its wording. */
  datatype Reply =
    | Say(notice: Notice)
    | CourseMenu(courses: set<int>)
    | CourseCard(courseId: int)
    | CategoryMenu(categories: set<int>)
    | PaymentMenu(courseId: int, methods: seq<string>)
    | Instructions(courseId: int, paymentMethod: string)
    | GiftPrompt(courseId: int)
    | CourseLink(courseId: int, free: bool)
    | Purchases(payments: set<int>)
    | Policy(text: string)

  datatype Message = Message(chat: int, reply: Reply)

  /** `BOT_PASSWORD`, `AUTO_APPROVE` and `PAYMENT_OPTIONS`. */
  datatype Config = Config(password: string, autoApprove: bool, payments: PaymentConfig)

  /** The state table, the database and the replies sent so far. */
  datatype Chat = Chat(sessions: map<int, Session>, db: Tables, outbox: seq<Message>)

  // ----------------------------------------------------------- keyboard

  const BrowseButton: string := "\U{11F}\U{178}\U{201C}\U{161} Browse Courses"
  const SearchButton: string := "\U{11F}\U{178}\U{201D} Search Courses"
  const CategoriesButton: string := "\U{11F}\U{178}\U{2014}\U{201A}\U{EF}\U{B8} Course Categories"
  const PolicyButton: string := "\U{11F}\U{178}\U{201C}\U{153} DMCA & Policy"
  const RequestButton: string := "\U{E2}\U{153}\U{EF}\U{B8} Request Course"
  const HelpButton: string := "\U{E2}\U{201C} Help"
  const PurchasesButton: string := "\U{11F}\U{178}\U{2018}\U{A4} My Purchases"

  /** The one-button keyboard shown while a course request is awaited. */
  const CancelRequestButton: string := "\U{E2}\U{152} Cancel Request"

  /** The text `save_course_request` compares the lowered message with. */
  const CancelRequestLiteral: string := "\U{E2}\U{152} cancel request"

  // ------------------------------------------------------ state updates

  /** `user_states[user.id] = s`: the remembered course and method stay. */
  function WithState(sessions: map<int, Session>, user: int, s: State): (r: map<int, Session>)
    ensures r.Keys == sessions.Keys + {user}
    ensures r[user].state == s
    ensures user in sessions ==> r[user] == sessions[user].(state := s)
    ensures user !in sessions ==> r[user] == Session(s, None, None)
    ensures forall u :: u in sessions && u != user ==> r[u] == sessions[u]
  {
    sessions[user := if user in sessions then sessions[user].(state := s) else Session(s, None, None)]
  }

  /** Deleting the `_course` and `_payment_method` entries of an account. */
  function Forget(sessions: map<int, Session>, user: int): (r: map<int, Session>)
    ensures r.Keys == sessions.Keys
    ensures user in sessions ==> r[user] == Session(sessions[user].state, None, None)
    ensures forall u :: u in sessions && u != user ==> r[u] == sessions[u]
  {
    if user in sessions then sessions[user := Session(sessions[user].state, None, None)] else sessions
  }

  function Enter(c: Chat, user: int, s: State): Chat {
    c.(sessions := WithState(c.sessions, user, s))
  }

  function Send(c: Chat, user: int, r: Reply): Chat {
    c.(outbox := c.outbox + [Message(user, r)])
  }

  /** Whether a password gate turns the account back to `/start`. */
  predicate Gated(cfg: Config, c: Chat, user: int) {
    cfg.password != "" && user !in c.sessions
  }

  // ----------------------------------------------------------- commands

  /** `/start`: the account is put on file and waits for the password when one is set. */
  ghost function Start(cfg: Config, c: Chat, from: ChatUser, now: Timestamp): Chat {
    var c1 := c.(db := EnsureUser(c.db, from, now));
    if cfg.password != "" then Send(Enter(c1, from.id, AwaitingPassword), from.id, Say(AskPassword))
    else Send(Enter(c1, from.id, Idle), from.id, Say(Welcome))
  }

  /** `/courses`: the active courses, unless the password gate sends the account to `/start`. */
  ghost function CoursesCommand(cfg: Config, c: Chat, from: ChatUser, now: Timestamp): Chat {
    if Gated(cfg, c, from.id) then Start(cfg, c, from, now)
    else Send(Enter(c, from.id, ViewingCourses), from.id, CourseMenu(ActiveCourses(c.db)))
  }

  /** `/search`: asks for a query, unless the password gate sends the account to `/start`. */
  ghost function SearchCommand(cfg: Config, c: Chat, from: ChatUser, now: Timestamp): Chat {
    if Gated(cfg, c, from.id) then Start(cfg, c, from, now)
    else Send(Enter(c, from.id, SearchingCourses), from.id, Say(AskQuery))
  }

  function HelpCommand(c: Chat, from: ChatUser): Chat {
    Send(c, from.id, Say(Help))
  }

  // ---------------------------------------------------------- browsing

  function ShowCourseDetails(c: Chat, from: ChatUser, courseId: int): Chat {
    if ActiveCourse(c.db, courseId).None? then Send(c, from.id, Say(CourseNotFound))
    else Send(Enter(c, from.id, ViewingCourses), from.id, CourseCard(courseId))
  }

  function ShowCoursesInCategory(c: Chat, from: ChatUser, categoryId: int): Chat {
    if categoryId !in c.db.categories then Send(c, from.id, Say(CategoryNotFound))
    else if CoursesInCategory(c.db, categoryId) == {} then Send(c, from.id, Say(CategoryEmpty))
    else Send(Enter(c, from.id, ViewingCourses), from.id, CourseMenu(CoursesInCategory(c.db, categoryId)))
  }

  function ShowCategoriesMenu(c: Chat, from: ChatUser): Chat {
    var categories := CategoriesWithActive(c.db);
    if categories == {} then Send(c, from.id, Say(NoCategories))
    else Send(Enter(c, from.id, ViewingCourses), from.id, CategoryMenu(categories))
  }

  /** `handle_course_search`: back to idle when nothing matches. */
  function CourseSearch(c: Chat, from: ChatUser, query: string): Chat {
    var found := SearchResults(c.db, query);
    if found == {} then Send(Enter(c, from.id, Idle), from.id, Say(NoResults))
    else Send(Enter(c, from.id, ViewingCourses), from.id, CourseMenu(found))
  }

  // ------------------------------------------------------------ buying

  /**
   * `show_payment_options`: a free course's link at once; otherwise one
   * button per offered method.
   */
  function ShowPaymentOptions(cfg: Config, c: Chat, from: ChatUser, courseId: int): Chat {
    match ActiveCourse(c.db, courseId)
    case None => Send(c, from.id, Say(CourseNotFound))
    case Some(course) =>
      if course.isFree then Send(Enter(c, from.id, Idle), from.id, CourseLink(courseId, true))
      else
        var buttons := PaymentButtons(OfferedMethods(course.paymentOptions, cfg.payments));
        Send(Enter(c, from.id, SelectingPayment), from.id, PaymentMenu(courseId, buttons))
  }

  /**
   * `handle_payment_selection`: the course and method are remembered; a
   * gift card waits for a code, anything else for a photo.
   */
  function ChoosePaymentMethod(c: Chat, from: ChatUser, paymentMethod: string, courseId: int): Chat {
    if ActiveCourse(c.db, courseId).None? then Send(c, from.id, Say(CourseNotFound))
    else if paymentMethod == "gift" then
      var s := Session(EnteringGiftCode, Some(courseId), Some(paymentMethod));
      Send(c.(sessions := c.sessions[from.id := s]), from.id, GiftPrompt(courseId))
    else
      var s := Session(SendingProof, Some(courseId), Some(paymentMethod));
      Send(c.(sessions := c.sessions[from.id := s]), from.id, Instructions(courseId, paymentMethod))
  }

  /** `handle_callback`: data the handler cannot read (it raises) changes nothing. */
  ghost function PressButton(cfg: Config, c: Chat, from: ChatUser, data: string, now: Timestamp): Chat {
    match DecodeCallback(data)
    case None => c
    case Some(cb) => Dispatch(cfg, c, from, cb, now)
  }

  /** The handler `handle_callback` runs for a decoded press. */
  ghost function Dispatch(cfg: Config, c: Chat, from: ChatUser, cb: Callback, now: Timestamp): Chat {
    match cb
    case ViewCourse(id) => ShowCourseDetails(c, from, id)
    case ViewCategory(id) => ShowCoursesInCategory(c, from, id)
    case CategoriesMenu => ShowCategoriesMenu(c, from)
    case AllCourses => CoursesCommand(cfg, c, from, now)
    case Buy(id) => ShowPaymentOptions(cfg, c, from, id)
    case SelectPayment(m, id) => ChoosePaymentMethod(c, from, m, id)
    case Back => Send(Enter(c, from.id, Idle), from.id, Say(MainMenu))
    case Cancel => Send(Enter(c, from.id, Idle), from.id, Say(Cancelled))
    case AdminAction(_) => c
    case Ignored => c
  }

  /** The remembered course of an account, as `user_states.get(...)` reads it. */
  function RememberedCourse(c: Chat, user: int): Option<int> {
    if user in c.sessions then c.sessions[user].course else None
  }

  /**
   * `handle_gift_code`: a pending gift payment for the remembered course,
   * carrying the code in its details.  The course is looked up by id alone,
   * active or not.
   */
  ghost function SubmitGiftCode(c: Chat, from: ChatUser, code: string, now: Timestamp): Chat {
    var courseId := RememberedCourse(c, from.id);
    if courseId.None? || courseId.value == 0 then Send(Enter(c, from.id, Idle), from.id, Say(GiftCodeError))
    else if courseId.value !in c.db.courses then Send(Enter(c, from.id, Idle), from.id, Say(CourseNotFound))
    else
      var db1 := EnsureUser(c.db, from, now);
      var p := Submitted(EnsuredUserId(c.db, from, now), courseId.value, "gift", None,
                         c.db.courses[courseId.value].price, now, Some(GiftDetails(code)));
      var c1 := Enter(c.(db := InsertPayment(db1, p)), from.id, Idle);
      Send(c1.(sessions := Forget(c1.sessions, from.id)), from.id, Say(GiftCodeSubmitted))
  }

  /** The payment a photo creates: pending, or approved at once under `AUTO_APPROVE`. */
  function ProofPayment(autoApprove: bool, userId: int, courseId: int, paymentMethod: string,
                        proof: string, amount: real, now: Timestamp): (p: Payment)
    ensures p.userId == userId && p.courseId == courseId && p.paymentMethod == paymentMethod
    ensures p.proof == Some(proof) && p.amount == amount && p.details == None && p.submitted == now
    ensures p.status == (if autoApprove then Approved else Pending)
    ensures p.approvalDate == (if autoApprove then Some(now) else None)
  {
    var p := Submitted(userId, courseId, paymentMethod, Some(proof), amount, now, None);
    if autoApprove then p.(status := Approved, approvalDate := Some(now)) else p
  }

  /**
   * `handle_photo`.  `validImage` is what the image check says about the
   * bytes and `saved` the file name the proof was stored under, if any.
   * A missing `_payment_method` entry raises, changing nothing.
   */
  ghost function ReceivePhoto(cfg: Config, c: Chat, from: ChatUser, validImage: bool, image: seq<bv8>,
                              saved: Option<string>, now: Timestamp): Chat {
    var u := from.id;
    if u !in c.sessions || c.sessions[u].state != SendingProof || c.sessions[u].course.None? then
      Send(c, u, Say(UnexpectedPhoto))
    else if !validImage then Send(c, u, Say(InvalidImage))
    else if DetectDuplicatePayment(image, u) then Send(c, u, Say(DuplicateProof))
    else if c.sessions[u].paymentMethod.None? then c
    else RecordProof(cfg, c, from, c.sessions[u].course.value, c.sessions[u].paymentMethod.value, saved, now)
  }

  /** The rest of `handle_photo`, once the remembered course and method are read. */
  ghost function RecordProof(cfg: Config, c: Chat, from: ChatUser, courseId: int, paymentMethod: string,
                             saved: Option<string>, now: Timestamp): Chat {
    var u := from.id;
    var db1 := EnsureUser(c.db, from, now);
    if courseId !in c.db.courses then Send(c.(db := db1), u, Say(CourseNotFound))
    else if saved.None? || saved.value == [] then Send(c.(db := db1), u, Say(ProofNotSaved))
    else
      var p := ProofPayment(cfg.autoApprove, EnsuredUserId(c.db, from, now), courseId,
                            paymentMethod, saved.value, c.db.courses[courseId].price, now);
      var c1 := Enter(c.(db := InsertPayment(db1, p)), u, Idle);
      Send(c1.(sessions := Forget(c1.sessions, u)), u,
           if cfg.autoApprove then CourseLink(courseId, false) else Say(ProofPending))
  }

  // ---------------------------------------------------- other requests

  ghost function ShowPurchases(c: Chat, from: ChatUser, now: Timestamp): Chat {
    var db1 := EnsureUser(c.db, from, now);
    Send(c.(db := db1), from.id, Purchases(ApprovedPurchases(db1, EnsuredUserId(c.db, from, now))))
  }

  const PolicyKey: string := "dmca_policy_text"
  const DefaultPolicy: string := "No DMCA/Policy text has been set by the admin yet."

  /** The saved policy text when its setting row holds a non-empty value, else the default. */
  ghost function PolicyText(t: Tables): string {
    if exists id :: id in t.settings && t.settings[id].key == PolicyKey then
      var id :| id in t.settings && t.settings[id].key == PolicyKey;
      var v := t.settings[id].value;
      if v.Some? && v.value != [] then v.value else DefaultPolicy
    else DefaultPolicy
  }

  ghost function ShowPolicy(c: Chat, from: ChatUser): Chat {
    Send(c, from.id, Policy(PolicyText(c.db)))
  }

  function RequestCourse(c: Chat, from: ChatUser): Chat {
    Send(Enter(c, from.id, AwaitingCourseRequest), from.id, Say(RequestPrompt))
  }

  /** The cancel test as written: the lowered text against a literal that keeps an upper-case letter. */
  predicate CancelsAsWritten(text: string) {
    PyLower(text) == CancelRequestLiteral
  }

  /** The cancel test as intended: the text is the cancel button's, ignoring case. */
  predicate CancelsRequest(text: string) {
    PyLower(text) == PyLower(CancelRequestButton)
  }

  /** `save_course_request` with the outcome of its cancel test given. */
  ghost function SaveRequestWith(c: Chat, from: ChatUser, text: string, now: Timestamp, cancels: bool): Chat {
    var db1 := EnsureUser(c.db, from, now);
    if cancels then Send(Enter(c.(db := db1), from.id, Idle), from.id, Say(RequestCancelled))
    else
      var r := CourseRequest(EnsuredUserId(c.db, from, now), text, now, false);
      Send(Enter(c.(db := InsertRequest(db1, r)), from.id, Idle), from.id, Say(RequestSaved))
  }

  ghost function SaveCourseRequestAsWritten(c: Chat, from: ChatUser, text: string, now: Timestamp): Chat {
    SaveRequestWith(c, from, text, now, CancelsAsWritten(text))
  }

  ghost function SaveCourseRequest(c: Chat, from: ChatUser, text: string, now: Timestamp): Chat {
    SaveRequestWith(c, from, text, now, CancelsRequest(text))
  }

  /** `handle_text`: the state decides first, then the keyboard buttons, then the spam check. */
  ghost function ReceiveText(cfg: Config, c: Chat, from: ChatUser, text: string, now: Timestamp): Chat {
    var u := from.id;
    var st := if u in c.sessions then Some(c.sessions[u].state) else None;
    if StartsWith(text, "/") then c
    else if st == Some(AwaitingPassword) then
      if text == cfg.password then Send(Enter(c, u, Idle), u, Say(PasswordAccepted))
      else Send(c, u, Say(WrongPassword))
    else if st == Some(SearchingCourses) then CourseSearch(c, from, text)
    else if st == Some(EnteringGiftCode) then SubmitGiftCode(c, from, text, now)
    else if st == Some(AwaitingCourseRequest) then SaveCourseRequest(c, from, text, now)
    else if text == BrowseButton then CoursesCommand(cfg, c, from, now)
    else if text == SearchButton then SearchCommand(cfg, c, from, now)
    else if text == CategoriesButton then ShowCategoriesMenu(c, from)
    else if text == PolicyButton then ShowPolicy(c, from)
    else if text == RequestButton then RequestCourse(c, from)
    else if text == HelpButton then HelpCommand(c, from)
    else if text == PurchasesButton then ShowPurchases(c, from, now)
    else if Spam(text) then Send(c, u, Say(SpamWarning))
    else Send(c, u, Say(NotUnderstood))
  }

  /** What reaches the bot from one account. */
  datatype Event =
    | Started
    | AskedCourses
    | AskedHelp
    | AskedSearch
    | Pressed(data: string)
    | Typed(text: string)
    | SentPhoto(validImage: bool, image: seq<bv8>, saved: Option<string>)

  ghost function Step(cfg: Config, c: Chat, from: ChatUser, e: Event, now: Timestamp): Chat {
    match e
    case Started => Start(cfg, c, from, now)
    case AskedCourses => CoursesCommand(cfg, c, from, now)
    case AskedHelp => HelpCommand(c, from)
    case AskedSearch => SearchCommand(cfg, c, from, now)
    case Pressed(data) => PressButton(cfg, c, from, data, now)
    case Typed(text) => ReceiveText(cfg, c, from, text, now)
    case SentPhoto(valid, image, saved) => ReceivePhoto(cfg, c, from, valid, image, saved, now)
  }

  // ---------------------------------------------------------- invariant

  predicate Waiting(s: State) {
    s == SendingProof || s == EnteringGiftCode
  }

  /**
   * The remembered course and method come as a pair, the course is a row id,
   * and an account waiting for a photo or a gift code has the selection it
   * waits on.
   */
  predicate SessionOk(s: Session) {
    && (s.course.Some? <==> s.paymentMethod.Some?)
    && (s.course.Some? ==> s.course.value >= 1)
    && (s.state == SendingProof ==> s.course.Some? && s.paymentMethod != Some("gift"))
    && (s.state == EnteringGiftCode ==> s.course.Some? && s.paymentMethod == Some("gift"))
  }

  predicate SessionsOk(sessions: map<int, Session>) {
    forall u :: u in sessions ==> SessionOk(sessions[u])
  }

  predicate ChatOk(c: Chat) {
    Consistent(c.db) && SessionsOk(c.sessions)
  }

  lemma EnterKeepsSessions(sessions: map<int, Session>, user: int, s: State)
    requires SessionsOk(sessions) && !Waiting(s)
    ensures SessionsOk(WithState(sessions, user, s))
  {}

  /** A reply, with or without a move to a state that waits on nothing, keeps the invariant. */
  lemma Quiet(c: Chat, user: int, s: State)
    requires ChatOk(c) && !Waiting(s)
    ensures forall r :: ChatOk(Send(c, user, r)) && ChatOk(Send(Enter(c, user, s), user, r))
  {
    EnterKeepsSessions(c.sessions, user, s);
  }

  lemma StartKeeps(cfg: Config, c: Chat, from: ChatUser, now: Timestamp)
    requires ChatOk(c)
    ensures ChatOk(Start(cfg, c, from, now))
  {
    EnsureUserFacts(c.db, from, now);
    var c1 := c.(db := EnsureUser(c.db, from, now));
    Quiet(c1, from.id, if cfg.password != "" then AwaitingPassword else Idle);
  }

  lemma CommandsKeep(cfg: Config, c: Chat, from: ChatUser, now: Timestamp)
    requires ChatOk(c)
    ensures ChatOk(CoursesCommand(cfg, c, from, now)) && ChatOk(SearchCommand(cfg, c, from, now))
  {
    StartKeeps(cfg, c, from, now);
    Quiet(c, from.id, ViewingCourses);
    Quiet(c, from.id, SearchingCourses);
  }

  lemma BrowsingKeeps(c: Chat, from: ChatUser, id: int, query: string)
    requires ChatOk(c)
    ensures ChatOk(ShowCourseDetails(c, from, id)) && ChatOk(ShowCoursesInCategory(c, from, id))
    ensures ChatOk(ShowCategoriesMenu(c, from)) && ChatOk(CourseSearch(c, from, query))
    ensures ChatOk(RequestCourse(c, from)) && ChatOk(HelpCommand(c, from))
  {
    Quiet(c, from.id, ViewingCourses);
    Quiet(c, from.id, Idle);
    Quiet(c, from.id, AwaitingCourseRequest);
  }

  lemma OptionsKeep(cfg: Config, c: Chat, from: ChatUser, id: int)
    requires ChatOk(c)
    ensures ChatOk(ShowPaymentOptions(cfg, c, from, id))
  {
    Quiet(c, from.id, Idle);
    Quiet(c, from.id, SelectingPayment);
  }

  lemma ChooseKeeps(c: Chat, from: ChatUser, m: string, id: int)
    requires ChatOk(c)
    ensures ChatOk(ChoosePaymentMethod(c, from, m, id))
  {
    if ActiveCourse(c.db, id).Some? {
      assert id in c.db.courses;
    }
  }

  lemma DispatchKeeps(cfg: Config, c: Chat, from: ChatUser, cb: Callback, now: Timestamp)
    requires ChatOk(c)
    ensures ChatOk(Dispatch(cfg, c, from, cb, now))
  {
    match cb
    case SelectPayment(m, id) => ChooseKeeps(c, from, m, id);
    case ViewCourse(id) => BrowsingKeeps(c, from, id, "");
    case ViewCategory(id) => BrowsingKeeps(c, from, id, "");
    case Buy(id) => OptionsKeep(cfg, c, from, id);
    case CategoriesMenu => BrowsingKeeps(c, from, 0, "");
    case AllCourses => CommandsKeep(cfg, c, from, now);
    case Back => Quiet(c, from.id, Idle);
    case Cancel => Quiet(c, from.id, Idle);
    case AdminAction(_) =>
    case Ignored =>
  }

  lemma PressKeeps(cfg: Config, c: Chat, from: ChatUser, data: string, now: Timestamp)
    requires ChatOk(c)
    ensures ChatOk(PressButton(cfg, c, from, data, now))
  {
    match DecodeCallback(data)
    case None =>
    case Some(cb) => DispatchKeeps(cfg, c, from, cb, now);
  }

  /** Entering idle and forgetting the selection, as a finished submission does. */
  lemma FinishKeeps(c: Chat, user: int)
    requires SessionsOk(c.sessions)
    ensures var c1 := Enter(c, user, Idle); SessionsOk(Forget(c1.sessions, user))
  {
    EnterKeepsSessions(c.sessions, user, Idle);
  }

  lemma GiftCodeKeeps(c: Chat, from: ChatUser, code: string, now: Timestamp)
    requires ChatOk(c)
    ensures ChatOk(SubmitGiftCode(c, from, code, now))
  {
    var courseId := RememberedCourse(c, from.id);
    if courseId.None? || courseId.value == 0 || courseId.value !in c.db.courses {
      Quiet(c, from.id, Idle);
    } else {
      EnsureUserFacts(c.db, from, now);
      var db1 := EnsureUser(c.db, from, now);
      assert db1.courses == c.db.courses by {
        EnsureUserFrame(c.db, from, now);
      }
      var p := Submitted(EnsuredUserId(c.db, from, now), courseId.value, "gift", None,
                         c.db.courses[courseId.value].price, now, Some(GiftDetails(code)));
      InsertPaymentConsistent(db1, p);
      FinishKeeps(c, from.id);
    }
  }

  lemma RecordProofKeeps(cfg: Config, c: Chat, from: ChatUser, courseId: int, m: string,
                         saved: Option<string>, now: Timestamp)
    requires ChatOk(c)
    ensures ChatOk(RecordProof(cfg, c, from, courseId, m, saved, now))
  {
    EnsureUserFacts(c.db, from, now);
    if courseId in c.db.courses && saved.Some? && saved.value != [] {
      var db1 := EnsureUser(c.db, from, now);
      assert db1.courses == c.db.courses by {
        EnsureUserFrame(c.db, from, now);
      }
      var p := ProofPayment(cfg.autoApprove, EnsuredUserId(c.db, from, now), courseId, m, saved.value,
                            c.db.courses[courseId].price, now);
      InsertPaymentConsistent(db1, p);
      FinishKeeps(c, from.id);
    }
  }

  lemma PhotoKeeps(cfg: Config, c: Chat, from: ChatUser, validImage: bool, image: seq<bv8>,
                   saved: Option<string>, now: Timestamp)
    requires ChatOk(c)
    ensures ChatOk(ReceivePhoto(cfg, c, from, validImage, image, saved, now))
  {
    var u := from.id;
    if u !in c.sessions || c.sessions[u].state != SendingProof || c.sessions[u].course.None?
       || !validImage || DetectDuplicatePayment(image, u) || c.sessions[u].paymentMethod.None?
    {
      Quiet(c, u, Idle);
    } else {
      RecordProofKeeps(cfg, c, from, c.sessions[u].course.value, c.sessions[u].paymentMethod.value, saved, now);
    }
  }

  lemma RequestKeeps(c: Chat, from: ChatUser, text: string, now: Timestamp, cancels: bool)
    requires ChatOk(c)
    ensures ChatOk(SaveRequestWith(c, from, text, now, cancels))
  {
    EnsureUserFacts(c.db, from, now);
    Quiet(c.(db := EnsureUser(c.db, from, now)), from.id, Idle);
    InsertRequestConsistent(EnsureUser(c.db, from, now), CourseRequest(EnsuredUserId(c.db, from, now), text, now, false));
  }

  lemma PurchasesKeep(c: Chat, from: ChatUser, now: Timestamp)
    requires ChatOk(c)
    ensures ChatOk(ShowPurchases(c, from, now)) && ChatOk(ShowPolicy(c, from))
  {
    EnsureUserFacts(c.db, from, now);
  }

  lemma TextKeeps(cfg: Config, c: Chat, from: ChatUser, text: string, now: Timestamp)
    requires ChatOk(c)
    ensures ChatOk(ReceiveText(cfg, c, from, text, now))
  {
    var u := from.id;
    var st := if u in c.sessions then Some(c.sessions[u].state) else None;
    if StartsWith(text, "/") {
    } else if st == Some(AwaitingPassword) {
      Quiet(c, u, Idle);
    } else if st == Some(SearchingCourses) {
      BrowsingKeeps(c, from, 0, text);
    } else if st == Some(EnteringGiftCode) {
      GiftCodeKeeps(c, from, text, now);
    } else if st == Some(AwaitingCourseRequest) {
      RequestKeeps(c, from, text, now, CancelsRequest(text));
    } else if text == BrowseButton || text == SearchButton {
      CommandsKeep(cfg, c, from, now);
    } else if text == CategoriesButton || text == RequestButton || text == HelpButton {
      BrowsingKeeps(c, from, 0, text);
    } else if text == PolicyButton || text == PurchasesButton {
      PurchasesKeep(c, from, now);
    } else {
      Quiet(c, u, Idle);
    }
  }

  /** Whatever an account sends, the database stays consistent and every session well formed. */
  lemma StepKeepsInvariant(cfg: Config, c: Chat, from: ChatUser, e: Event, now: Timestamp)
    requires ChatOk(c)
    ensures ChatOk(Step(cfg, c, from, e, now))
  {
    match e
    case Started => StartKeeps(cfg, c, from, now);
    case AskedCourses => CommandsKeep(cfg, c, from, now);
    case AskedHelp => BrowsingKeeps(c, from, 0, "");
    case AskedSearch => CommandsKeep(cfg, c, from, now);
    case Pressed(data) => PressKeeps(cfg, c, from, data, now);
    case Typed(text) => TextKeeps(cfg, c, from, text, now);
    case SentPhoto(valid, image, saved) => PhotoKeeps(cfg, c, from, valid, image, saved, now);
  }

  // ------------------------------------------------------ the password

  /** `/start` puts the account on file and waits for the password exactly when one is set. */
  lemma StartWaitsForPassword(cfg: Config, c: Chat, from: ChatUser, now: Timestamp)
    ensures var c' := Start(cfg, c, from, now);
      && HasUser(c'.db, IntString(from.id))
      && (c'.sessions[from.id].state == AwaitingPassword <==> cfg.password != "")
      && (cfg.password == "" ==> c'.sessions[from.id].state == Idle)
  {
    var id := EnsuredUserId(c.db, from, now);
    assert id in EnsureUser(c.db, from, now).users;
  }

  /** While the password is awaited, only the password itself moves the account on. */
  lemma PasswordGate(cfg: Config, c: Chat, from: ChatUser, text: string, now: Timestamp)
    requires from.id in c.sessions && c.sessions[from.id].state == AwaitingPassword
    requires !StartsWith(text, "/")
    ensures var c' := ReceiveText(cfg, c, from, text, now);
      && c'.db == c.db
      && (text == cfg.password ==> c'.sessions[from.id] == c.sessions[from.id].(state := Idle))
      && (text != cfg.password ==> c'.sessions == c.sessions)
  {}

  /**
   * Texts starting with `/` are dropped before the password test, so a
   * password that starts with `/` can never be entered.
   */
  lemma SlashPasswordLocksOut(cfg: Config, c: Chat, from: ChatUser, text: string, now: Timestamp)
    requires StartsWith(cfg.password, "/")
    requires from.id in c.sessions && c.sessions[from.id].state == AwaitingPassword
    ensures ReceiveText(cfg, c, from, text, now).sessions == c.sessions
  {
    if !StartsWith(text, "/") {
      assert text != cfg.password;
    }
  }

  /**
   * The gate of `/courses` only turns away accounts the bot has never seen:
   * an account still waiting for the password gets the course list.
   */
  lemma CoursesGateAdmitsKnownAccounts(cfg: Config, c: Chat, from: ChatUser, now: Timestamp)
    ensures var c' := CoursesCommand(cfg, c, from, now);
      c'.sessions[from.id].state == ViewingCourses <==> !Gated(cfg, c, from.id)
    ensures from.id in c.sessions ==>
      var c' := CoursesCommand(cfg, c, from, now);
      && c'.db == c.db
      && c'.sessions[from.id] == c.sessions[from.id].(state := ViewingCourses)
      && c'.outbox == c.outbox + [Message(from.id, CourseMenu(ActiveCourses(c.db)))]
  {}

  // --------------------------------------------------- choosing a course

  /** A course that is missing or inactive changes neither the state nor the database. */
  lemma UnavailableCourseChangesNothing(cfg: Config, c: Chat, from: ChatUser, courseId: int, m: string)
    requires ActiveCourse(c.db, courseId).None?
    ensures var c' := ShowCourseDetails(c, from, courseId); c'.sessions == c.sessions && c'.db == c.db
    ensures var c' := ShowPaymentOptions(cfg, c, from, courseId); c'.sessions == c.sessions && c'.db == c.db
    ensures var c' := ChoosePaymentMethod(c, from, m, courseId); c'.sessions == c.sessions && c'.db == c.db
  {}

  /** A free course's link is sent at once, with no payment row, and the account goes idle. */
  lemma FreeCourseSendsLink(cfg: Config, c: Chat, from: ChatUser, courseId: int)
    requires ActiveCourse(c.db, courseId).Some? && c.db.courses[courseId].isFree
    ensures var c' := ShowPaymentOptions(cfg, c, from, courseId);
      && c'.db == c.db
      && c'.sessions[from.id].state == Idle
      && c'.outbox == c.outbox + [Message(from.id, CourseLink(courseId, true))]
  {}

  /**
   * A paid course shows one button per offered method the bot knows, and
   * each button reads back as the selection of that method for this course.
   */
  lemma MethodButtonsReadBack(m: string, courseId: int)
    requires KnownMethod(m)
    ensures DecodeCallback(EncodeCallback(SelectPayment(m, courseId))) == Some(SelectPayment(m, courseId))
  {
    assert m == "upi" || m == "crypto" || m == "paypal" || m == "cod" || m == "gift";
    assert '_' !in m;
    DecodeEncode(SelectPayment(m, courseId));
  }

  lemma PaidCourseShowsMethodButtons(cfg: Config, c: Chat, from: ChatUser, courseId: int)
    requires ActiveCourse(c.db, courseId).Some? && !c.db.courses[courseId].isFree
    ensures var c' := ShowPaymentOptions(cfg, c, from, courseId);
      && c'.db == c.db
      && c'.sessions[from.id].state == SelectingPayment
      && |c'.outbox| == |c.outbox| + 1
      && c'.outbox[|c.outbox|].reply.PaymentMenu?
      && c'.outbox[|c.outbox|].reply.courseId == courseId
      && forall m :: m in c'.outbox[|c.outbox|].reply.methods ==>
           KnownMethod(m) && DecodeCallback(EncodeCallback(SelectPayment(m, courseId))) == Some(SelectPayment(m, courseId))
  {
    var course := c.db.courses[courseId];
    var buttons := PaymentButtons(OfferedMethods(course.paymentOptions, cfg.payments));
    var c' := ShowPaymentOptions(cfg, c, from, courseId);
    assert c' == Send(Enter(c, from.id, SelectingPayment), from.id, PaymentMenu(courseId, buttons));
    assert c'.outbox[|c.outbox|].reply == PaymentMenu(courseId, buttons);
    forall m | m in buttons
      ensures KnownMethod(m) && DecodeCallback(EncodeCallback(SelectPayment(m, courseId))) == Some(SelectPayment(m, courseId))
    {
      MethodButtonsReadBack(m, courseId);
    }
  }

  /** Selecting a method remembers the course and the method; a gift card waits for a code. */
  lemma SelectionRemembersChoice(c: Chat, from: ChatUser, m: string, courseId: int)
    requires ActiveCourse(c.db, courseId).Some?
    ensures var c' := ChoosePaymentMethod(c, from, m, courseId);
      && c'.db == c.db
      && c'.sessions[from.id] == Session(if m == "gift" then EnteringGiftCode else SendingProof, Some(courseId), Some(m))
      && forall u :: u in c.sessions && u != from.id ==> c'.sessions[u] == c.sessions[u]
  {}

  /** "Back" and "Cancel" make the account idle but keep the remembered course and method. */
  lemma BackAndCancelKeepSelection(cfg: Config, c: Chat, from: ChatUser, data: string, now: Timestamp)
    requires data == BackTag || data == CancelTag
    requires from.id in c.sessions
    ensures var c' := PressButton(cfg, c, from, data, now);
      && c'.db == c.db
      && c'.sessions[from.id] == c.sessions[from.id].(state := Idle)
  {
    if data == BackTag {
      DecodeFixed(Back);
    } else {
      DecodeFixed(Cancel);
    }
  }

  // -------------------------------------------------------------- search

  /**
   * A query without wildcards lists exactly the active courses whose title
   * or category name contains it, ignoring case, and leaves the account
   * idle when there is none.
   */
  lemma SearchListsMatches(c: Chat, from: ChatUser, query: string)
    requires NoWildcards(query)
    ensures var c' := CourseSearch(c, from, query);
      && c'.db == c.db
      && |c'.outbox| == |c.outbox| + 1
      && (c'.sessions[from.id].state == Idle <==>
           forall id :: id in ActiveCourses(c.db) ==> !MentionedIn(c.db, id, query))
      && (c'.sessions[from.id].state == ViewingCourses <==> c'.outbox[|c.outbox|].reply.CourseMenu?)
      && (c'.outbox[|c.outbox|].reply.CourseMenu? ==>
           forall id :: id in c'.outbox[|c.outbox|].reply.courses <==>
             id in ActiveCourses(c.db) && MentionedIn(c.db, id, query))
  {
    var found := SearchResults(c.db, query);
    forall id | true
      ensures id in found <==> id in ActiveCourses(c.db) && MentionedIn(c.db, id, query)
    {
      SearchFindsExactlyMatches(c.db, query, id);
    }
    if id :| id in found {
      assert id in ActiveCourses(c.db) && MentionedIn(c.db, id, query);
    } else {
      assert forall id :: id !in found;
      assert found == {};
    }
  }

  // ------------------------------------------------------------ payments

  /** A payment a photo or a code added: one new row at the next id, the old rows untouched. */
  predicate AddsOnePayment(before: Tables, after: Tables) {
    && before.nextPayment !in before.payments
    && after.payments.Keys == before.payments.Keys + {before.nextPayment}
    && (forall id :: id in before.payments ==> after.payments[id] == before.payments[id])
  }

  /** The account behind a chat user, as the database has it. */
  predicate PaidBy(t: Tables, p: Payment, from: ChatUser) {
    p.userId in t.users && t.users[p.userId].telegramId == IntString(from.id)
  }

  /** Putting the account on file and then adding a payment made out to it adds exactly that payment. */
  lemma EnsureThenInsert(t: Tables, from: ChatUser, now: Timestamp, p: Payment)
    requires Consistent(t) && p.userId == EnsuredUserId(t, from, now)
    ensures var t' := InsertPayment(EnsureUser(t, from, now), p);
      AddsOnePayment(t, t') && t'.payments[t.nextPayment] == p && PaidBy(t', p, from)
  {
    var t1 := EnsureUser(t, from, now);
    var t' := InsertPayment(t1, p);
    assert t1.payments == t.payments && t1.nextPayment == t.nextPayment by {
      EnsureUserFrame(t, from, now);
    }
    assert t.nextPayment !in t.payments by {
      assert KeysBelow(t.payments, t.nextPayment);
    }
    assert t'.payments == t.payments[t.nextPayment := p];
    assert t'.users == t1.users;
  }

  /** A photo sent while a proof is awaited records one payment of the course's price. */
  lemma PhotoSubmits(cfg: Config, c: Chat, from: ChatUser, m: string, courseId: int,
                     image: seq<bv8>, file: string, now: Timestamp)
    requires Consistent(c.db) && courseId in c.db.courses && file != []
    requires from.id in c.sessions && c.sessions[from.id] == Session(SendingProof, Some(courseId), Some(m))
    ensures var c' := ReceivePhoto(cfg, c, from, true, image, Some(file), now);
      && AddsOnePayment(c.db, c'.db)
      && var p := c'.db.payments[c.db.nextPayment];
      && p.courseId == courseId && p.paymentMethod == m && p.proof == Some(file)
      && p.amount == c.db.courses[courseId].price && PaidBy(c'.db, p, from)
      && p.status == (if cfg.autoApprove then Approved else Pending)
      && from.id in c'.sessions && c'.sessions[from.id] == Session(Idle, None, None)
      && c'.outbox[|c.outbox|] == Message(from.id, if cfg.autoApprove then CourseLink(courseId, false) else Say(ProofPending))
  {
    var p := ProofPayment(cfg.autoApprove, EnsuredUserId(c.db, from, now), courseId, m, file, c.db.courses[courseId].price, now);
    var c1 := RecordProof(cfg, c, from, courseId, m, Some(file), now);
    assert ReceivePhoto(cfg, c, from, true, image, Some(file), now) == c1;
    assert c1.db == InsertPayment(EnsureUser(c.db, from, now), p);
    EnsureThenInsert(c.db, from, now, p);
  }

  /** No photo records a payment unless a proof was awaited, the image passed and the file was saved. */
  lemma PhotoPaysOnlyWhenAwaited(cfg: Config, c: Chat, from: ChatUser, validImage: bool, image: seq<bv8>,
                                 saved: Option<string>, now: Timestamp)
    requires Consistent(c.db)
    ensures var c' := ReceivePhoto(cfg, c, from, validImage, image, saved, now);
      c'.db.payments != c.db.payments ==>
        && from.id in c.sessions && c.sessions[from.id].state == SendingProof
        && validImage && saved.Some? && saved.value != []
        && AddsOnePayment(c.db, c'.db)
  {
    var u := from.id;
    if u in c.sessions && c.sessions[u].state == SendingProof && c.sessions[u].course.Some?
       && validImage && !DetectDuplicatePayment(image, u) && c.sessions[u].paymentMethod.Some?
    {
      var courseId := c.sessions[u].course.value;
      var m := c.sessions[u].paymentMethod.value;
      assert ReceivePhoto(cfg, c, from, validImage, image, saved, now) == RecordProof(cfg, c, from, courseId, m, saved, now);
      if courseId in c.db.courses && saved.Some? && saved.value != [] {
        var p := ProofPayment(cfg.autoApprove, EnsuredUserId(c.db, from, now), courseId, m, saved.value,
                              c.db.courses[courseId].price, now);
        EnsureThenInsert(c.db, from, now, p);
      } else {
        EnsureUserFrame(c.db, from, now);
      }
    }
  }

  /** A method button reaches `handle_payment_selection`. */
  lemma PressSelects(cfg: Config, c: Chat, from: ChatUser, m: string, courseId: int, now: Timestamp)
    requires '_' !in m
    ensures Step(cfg, c, from, Pressed(EncodeCallback(SelectPayment(m, courseId))), now)
         == ChoosePaymentMethod(c, from, m, courseId)
  {
    DecodeEncode(SelectPayment(m, courseId));
  }

  /**
   * Choosing a method by its button and then sending a photo records one
   * payment for that course and method; any name without `_` is accepted.
   */
  lemma PayByPhoto(cfg: Config, c: Chat, from: ChatUser, m: string, courseId: int,
                   image: seq<bv8>, file: string, now: Timestamp)
    requires ChatOk(c) && ActiveCourse(c.db, courseId).Some?
    requires m != "gift" && '_' !in m && file != []
    ensures var c1 := Step(cfg, c, from, Pressed(EncodeCallback(SelectPayment(m, courseId))), now);
            var c2 := Step(cfg, c1, from, SentPhoto(true, image, Some(file)), now);
      && ChatOk(c2)
      && AddsOnePayment(c.db, c2.db)
      && var p := c2.db.payments[c.db.nextPayment];
      && p.courseId == courseId && p.paymentMethod == m && p.proof == Some(file)
      && p.amount == c.db.courses[courseId].price && PaidBy(c2.db, p, from)
      && p.status == (if cfg.autoApprove then Approved else Pending)
      && from.id in c2.sessions && c2.sessions[from.id] == Session(Idle, None, None)
  {
    PressSelects(cfg, c, from, m, courseId, now);
    var c1 := ChoosePaymentMethod(c, from, m, courseId);
    var c2 := ReceivePhoto(cfg, c1, from, true, image, Some(file), now);
    PhotoStep(cfg, c1, from, true, image, Some(file), now);
    PhotoFlow(cfg, c, from, m, courseId, image, file, now, c1, c2);
  }

  lemma PhotoStep(cfg: Config, c: Chat, from: ChatUser, validImage: bool, image: seq<bv8>, saved: Option<string>, now: Timestamp)
    ensures Step(cfg, c, from, SentPhoto(validImage, image, saved), now) == ReceivePhoto(cfg, c, from, validImage, image, saved, now)
  {}

  /** Choosing a method other than the gift card and then sending a photo, with both steps named. */
  lemma PhotoFlow(cfg: Config, c: Chat, from: ChatUser, m: string, courseId: int,
                  image: seq<bv8>, file: string, now: Timestamp, c1: Chat, c2: Chat)
    requires ChatOk(c) && ActiveCourse(c.db, courseId).Some? && m != "gift" && file != []
    requires c1 == ChoosePaymentMethod(c, from, m, courseId)
    requires c2 == ReceivePhoto(cfg, c1, from, true, image, Some(file), now)
    ensures ChatOk(c2) && AddsOnePayment(c.db, c2.db)
    ensures var p := c2.db.payments[c.db.nextPayment];
      && p.courseId == courseId && p.paymentMethod == m && p.proof == Some(file)
      && p.amount == c.db.courses[courseId].price && PaidBy(c2.db, p, from)
      && p.status == (if cfg.autoApprove then Approved else Pending)
      && from.id in c2.sessions && c2.sessions[from.id] == Session(Idle, None, None)
  {
    SelectionRemembersChoice(c, from, m, courseId);
    ChooseKeeps(c, from, m, courseId);
    PhotoSubmits(cfg, c1, from, m, courseId, image, file, now);
    PhotoKeeps(cfg, c1, from, true, image, Some(file), now);
  }

  /** Auto-approval does to the new payment what the back office's approval does. */
  lemma AutoApprovalIsBackOfficeApproval(userId: int, courseId: int, m: string, proof: string,
                                         amount: real, now: Timestamp)
    ensures ProofPayment(true, userId, courseId, m, proof, amount, now)
         == Admin.Approve(ProofPayment(false, userId, courseId, m, proof, amount, now), now)
  {}

  /** With auto-approval on, the course paid for by photo is listed among the account's purchases. */
  lemma AutoApprovedPhotoIsPurchased(cfg: Config, c: Chat, from: ChatUser, m: string, courseId: int,
                                     image: seq<bv8>, file: string, now: Timestamp, later: Timestamp)
    requires cfg.autoApprove
    requires ChatOk(c) && ActiveCourse(c.db, courseId).Some?
    requires m != "gift" && '_' !in m && file != []
    ensures var c1 := Step(cfg, c, from, Pressed(EncodeCallback(SelectPayment(m, courseId))), now);
            var c2 := Step(cfg, c1, from, SentPhoto(true, image, Some(file)), now);
            var c3 := Step(cfg, c2, from, Typed(PurchasesButton), later);
      && |c3.outbox| == |c2.outbox| + 1
      && c3.outbox[|c2.outbox|].reply.Purchases?
      && c.db.nextPayment in c3.outbox[|c2.outbox|].reply.payments
  {
    PayByPhoto(cfg, c, from, m, courseId, image, file, now);
    var c1 := Step(cfg, c, from, Pressed(EncodeCallback(SelectPayment(m, courseId))), now);
    var c2 := Step(cfg, c1, from, SentPhoto(true, image, Some(file)), now);
    var p := c2.db.payments[c.db.nextPayment];
    PurchasesButtonShowsPurchases(cfg, c2, from, later);
    var uid := EnsuredUserId(c2.db, from, later);
    assert uid in c2.db.users && c2.db.users[uid].telegramId == IntString(from.id);
    assert uid == p.userId;
    assert c.db.nextPayment in ApprovedPurchases(EnsureUser(c2.db, from, later), uid);
  }

  /** Whether a typed text goes to the keyboard buttons rather than to an awaited input. */
  predicate ReadsButtons(c: Chat, user: int) {
    user in c.sessions ==>
      c.sessions[user].state !in {AwaitingPassword, SearchingCourses, EnteringGiftCode, AwaitingCourseRequest}
  }

  /** The purchases button, pressed while no input is awaited, lists the account's purchases. */
  lemma PurchasesButtonShowsPurchases(cfg: Config, c: Chat, from: ChatUser, now: Timestamp)
    requires ReadsButtons(c, from.id)
    ensures Step(cfg, c, from, Typed(PurchasesButton), now) == ShowPurchases(c, from, now)
    ensures var c' := Step(cfg, c, from, Typed(PurchasesButton), now);
      && c'.outbox == c.outbox + [Message(from.id, Purchases(ApprovedPurchases(c'.db, EnsuredUserId(c.db, from, now))))]
      && (HasUser(c.db, IntString(from.id)) ==> c'.db == c.db)
  {
    assert |PurchasesButton| == 17;
    assert PurchasesButton[0] != '/';
  }

  /** A code typed while a gift card is awaited records one pending gift payment carrying it. */
  lemma GiftCodeSubmits(c: Chat, from: ChatUser, courseId: int, code: string, now: Timestamp)
    requires Consistent(c.db) && courseId >= 1 && courseId in c.db.courses
    requires RememberedCourse(c, from.id) == Some(courseId)
    ensures var c' := SubmitGiftCode(c, from, code, now);
      && AddsOnePayment(c.db, c'.db)
      && var p := c'.db.payments[c.db.nextPayment];
      && p.courseId == courseId && p.paymentMethod == "gift" && p.proof == None && p.status == Pending
      && p.amount == c.db.courses[courseId].price && p.details == Some(GiftDetails(code)) && PaidBy(c'.db, p, from)
      && from.id in c'.sessions && c'.sessions[from.id] == Session(Idle, None, None)
  {
    var p := Submitted(EnsuredUserId(c.db, from, now), courseId, "gift", None,
                       c.db.courses[courseId].price, now, Some(GiftDetails(code)));
    var c' := SubmitGiftCode(c, from, code, now);
    assert c'.db == InsertPayment(EnsureUser(c.db, from, now), p);
    EnsureThenInsert(c.db, from, now, p);
  }

  /** A text that is no command, typed while a gift code is awaited, is taken as the code. */
  lemma TypedWhileAwaitingCode(cfg: Config, c: Chat, from: ChatUser, text: string, now: Timestamp)
    requires from.id in c.sessions && c.sessions[from.id].state == EnteringGiftCode && !StartsWith(text, "/")
    ensures Step(cfg, c, from, Typed(text), now) == SubmitGiftCode(c, from, text, now)
  {}

  /** Choosing the gift card and then submitting a code, with both steps named. */
  lemma GiftCardFlow(c: Chat, from: ChatUser, courseId: int, code: string, now: Timestamp, c1: Chat, c2: Chat)
    requires ChatOk(c) && ActiveCourse(c.db, courseId).Some?
    requires c1 == ChoosePaymentMethod(c, from, "gift", courseId) && c2 == SubmitGiftCode(c1, from, code, now)
    requires Trimmed(code) && !Contains(code, GiftMarker) && !Contains(code, RedeemedMarker)
    ensures from.id in c1.sessions && c1.sessions[from.id].state == EnteringGiftCode
    ensures ChatOk(c2) && AddsOnePayment(c.db, c2.db)
    ensures var p := c2.db.payments[c.db.nextPayment];
      && p.courseId == courseId && p.status == Pending && p.amount == c.db.courses[courseId].price
      && PaidBy(c2.db, p, from)
      && (forall times :: GiftCardCode(Admin.ApprovedAt(p, times).paymentMethod, Admin.ApprovedAt(p, times).details) == Some(code))
      && from.id in c2.sessions && c2.sessions[from.id] == Session(Idle, None, None)
  {
    SelectionRemembersChoice(c, from, "gift", courseId);
    ChooseKeeps(c, from, "gift", courseId);
    assert courseId >= 1 by {
      assert KeysBelow(c.db.courses, c.db.nextCourse);
    }
    GiftCodeSubmits(c1, from, courseId, code, now);
    GiftCodeKeeps(c1, from, code, now);
    var p := c2.db.payments[c.db.nextPayment];
    forall times: seq<Timestamp>
      ensures GiftCardCode(Admin.ApprovedAt(p, times).paymentMethod, Admin.ApprovedAt(p, times).details) == Some(code)
    {
      Admin.ApprovalsKeepGiftCode(code, p, times);
    }
  }

  /**
   * Choosing the gift card button and typing a code records one pending gift
   * payment from which the back office reads back the same code, however
   * often it is approved.
   */
  lemma PayByGiftCard(cfg: Config, c: Chat, from: ChatUser, courseId: int, code: string, now: Timestamp)
    requires ChatOk(c) && ActiveCourse(c.db, courseId).Some?
    requires !StartsWith(code, "/") && Trimmed(code) && !Contains(code, GiftMarker) && !Contains(code, RedeemedMarker)
    ensures var c1 := Step(cfg, c, from, Pressed(EncodeCallback(SelectPayment("gift", courseId))), now);
            var c2 := Step(cfg, c1, from, Typed(code), now);
      && ChatOk(c2)
      && AddsOnePayment(c.db, c2.db)
      && var p := c2.db.payments[c.db.nextPayment];
      && p.courseId == courseId && p.status == Pending && p.amount == c.db.courses[courseId].price
      && PaidBy(c2.db, p, from)
      && (forall times :: GiftCardCode(Admin.ApprovedAt(p, times).paymentMethod, Admin.ApprovedAt(p, times).details) == Some(code))
      && from.id in c2.sessions && c2.sessions[from.id] == Session(Idle, None, None)
  {
    assert '_' !in "gift";
    PressSelects(cfg, c, from, "gift", courseId, now);
    var c1 := ChoosePaymentMethod(c, from, "gift", courseId);
    var c2 := SubmitGiftCode(c1, from, code, now);
    GiftCardFlow(c, from, courseId, code, now, c1, c2);
    TypedWhileAwaitingCode(cfg, c1, from, code, now);
  }

  // -------------------------------------------------------------- policy

  /**
   * After the back office saves the policy form, the bot shows the saved
   * text, or its default text when the saved value is empty.
   */
  lemma PolicyShowsSavedText(t: Tables, text: string)
    requires Consistent(t)
    ensures PolicyText(Admin.SaveSettings(t, map[PolicyKey := text], Admin.SettingsKeys))
         == if text == [] then DefaultPolicy else text
  {
    var form := map[PolicyKey := text];
    var t1 := Admin.Upsert(t, PolicyKey, text);
    assert Admin.SettingsKeys[0] == PolicyKey && Admin.SettingsKeys[1..] == [];
    assert Admin.SaveSettings(t, form, Admin.SettingsKeys) == Admin.SaveSettings(t1, form, []);
    Admin.UpsertFacts(t, PolicyKey, text);
    var j :| j in t1.settings && t1.settings[j] == BotSetting(PolicyKey, Some(text));
    assert forall id :: id in t1.settings && t1.settings[id].key == PolicyKey ==> id == j;
  }

  // ------------------------------------------------------ course requests

  /** The typed text is stored as a request unless it cancels; the account goes idle either way. */
  lemma SaveRequestOutcome(c: Chat, from: ChatUser, text: string, now: Timestamp, cancels: bool)
    requires Consistent(c.db)
    ensures var c' := SaveRequestWith(c, from, text, now, cancels);
      && c'.sessions[from.id].state == Idle
      && (cancels ==> c'.db.requests == c.db.requests)
      && (!cancels ==>
            && c.db.nextRequest !in c.db.requests
            && c'.db.requests == c.db.requests[c.db.nextRequest := CourseRequest(EnsuredUserId(c.db, from, now), text, now, false)])
  {
    EnsureUserFrame(c.db, from, now);
  }

  /** Lowering never yields the capital `Œ` the cancel literal holds, so the test as written never succeeds. */
  lemma CancelLiteralNeverMatches(text: string)
    ensures !CancelsAsWritten(text)
  {
    if |PyLower(text)| == |CancelRequestLiteral| {
      assert PyLower(text)[1] == PyLowerChar(text[1]);
      assert PyLower(text)[1] != CancelRequestLiteral[1];
    }
  }

  /** As written, pressing "Cancel Request" files the button's text as a course request. */
  lemma CancelButtonFiledAsRequest(c: Chat, from: ChatUser, now: Timestamp)
    requires Consistent(c.db)
    ensures var c' := SaveCourseRequestAsWritten(c, from, CancelRequestButton, now);
      && c.db.nextRequest !in c.db.requests
      && c.db.nextRequest in c'.db.requests
      && c'.db.requests[c.db.nextRequest].text == CancelRequestButton
  {
    CancelLiteralNeverMatches(CancelRequestButton);
    SaveRequestOutcome(c, from, CancelRequestButton, now, false);
  }

  /**
   * With the test compared against the lowered button text, pressing the
   * button (or typing its text in any case) cancels and stores nothing,
   * and every other text is stored.
   */
  lemma CancelButtonCancels(c: Chat, from: ChatUser, text: string, now: Timestamp)
    requires Consistent(c.db)
    ensures CancelsRequest(CancelRequestButton)
    ensures var c' := SaveCourseRequest(c, from, text, now);
      && c'.sessions[from.id].state == Idle
      && (c'.db.requests == c.db.requests <==> CancelsRequest(text))
  {
    SaveRequestOutcome(c, from, text, now, CancelsRequest(text));
    var c' := SaveCourseRequest(c, from, text, now);
    if !CancelsRequest(text) {
      assert c.db.nextRequest in c'.db.requests;
    }
  }
}
