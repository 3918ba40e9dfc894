/**
 * The running bot: the `user_states` dictionary and the replies sent are
 * fields updated in place, the database is the shared `RecordStore`, and
 * each handler is a method whose effect is the matching function of
 * `Checkout` applied to the state before the call.
 */
module Handlers {
  import opened Wrappers
  import opened Strings
  import opened Models
  import opened Store
  import opened Helpers
  import opened Catalog
  import opened Callbacks
  import opened Checkout

  /** The method list of `show_payment_options`: the course's own list, else the globals appended in turn. */
  method OfferedPaymentMethods(options: Option<string>, cfg: PaymentConfig) returns (ms: seq<string>)
    ensures ms == OfferedMethods(options, cfg)
  {
    ms := [];
    if options.Some? && options.value != [] {
      ms := Split(options.value, ',');
    }
    if ms == [] {
      ms := AppendEnabled([cfg.upi != "", cfg.crypto != "", cfg.paypal != "", cfg.cod, cfg.gift]);
    }
  }

  /** The payment keyboard: one button per known method offered, appended in the fixed order. */
  method PaymentKeyboard(offered: seq<string>) returns (buttons: seq<string>)
    ensures buttons == PaymentButtons(offered)
  {
    buttons := AppendEnabled(["upi" in offered, "crypto" in offered, "paypal" in offered, "cod" in offered, "gift" in offered]);
  }

  /** The five conditional appends both keyboard builders are made of. */
  method AppendEnabled(keep: seq<bool>) returns (ms: seq<string>)
    requires |keep| == MethodCount
    ensures ms == SelectUpTo(keep, MethodCount)
  {
    ms := [];
    if keep[0] { ms := ms + ["upi"]; }
    assert ms == SelectUpTo(keep, 1);
    if keep[1] { ms := ms + ["crypto"]; }
    assert ms == SelectUpTo(keep, 2);
    if keep[2] { ms := ms + ["paypal"]; }
    assert ms == SelectUpTo(keep, 3);
    if keep[3] { ms := ms + ["cod"]; }
    assert ms == SelectUpTo(keep, 4);
    if keep[4] { ms := ms + ["gift"]; }
  }

  class Bot {
    const config: Config
    const store: RecordStore
    var sessions: map<int, Session>
    var outbox: seq<Message>

    function Snapshot(): Chat
      reads this, store
    {
      Chat(sessions, store.Snapshot(), outbox)
    }

    predicate Valid()
      reads this, store
    {
      ChatOk(Snapshot())
    }

    constructor (cfg: Config, db: RecordStore)
      requires db.Valid()
      ensures Valid() && config == cfg && store == db
      ensures Snapshot() == Chat(map[], db.Snapshot(), [])
    {
      config := cfg;
      store := db;
      sessions := map[];
      outbox := [];
    }

    /** Sends one reply to an account. */
    method Post(user: int, r: Reply)
      modifies this
      ensures sessions == old(sessions) && outbox == old(outbox) + [Message(user, r)]
    {
      outbox := outbox + [Message(user, r)];
    }

    /** `user_states[user] = s`. */
    method SetState(user: int, s: State)
      modifies this
      ensures sessions == WithState(old(sessions), user, s) && outbox == old(outbox)
    {
      if user in sessions {
        sessions := sessions[user := sessions[user].(state := s)];
      } else {
        sessions := sessions[user := Session(s, None, None)];
      }
    }

    method StartCommand(from: ChatUser, now: Timestamp)
      requires Valid()
      modifies this, store
      ensures Valid()
      ensures Snapshot() == Checkout.Start(config, old(Snapshot()), from, now)
    {
      ghost var c0 := Snapshot();
      var userId := store.GetOrCreateUser(from, now);
      if config.password != "" {
        SetState(from.id, AwaitingPassword);
        Post(from.id, Say(AskPassword));
      } else {
        SetState(from.id, Idle);
        Post(from.id, Say(Welcome));
      }
      StartKeeps(config, c0, from, now);
    }

    method CoursesCommand(from: ChatUser, now: Timestamp)
      requires Valid()
      modifies this, store
      ensures Valid()
      ensures Snapshot() == Checkout.CoursesCommand(config, old(Snapshot()), from, now)
    {
      ghost var c0 := Snapshot();
      if config.password != "" && from.id !in sessions {
        StartCommand(from, now);
        return;
      }
      SetState(from.id, ViewingCourses);
      Post(from.id, CourseMenu(ActiveCourses(store.Snapshot())));
      CommandsKeep(config, c0, from, now);
    }

    method SearchCommand(from: ChatUser, now: Timestamp)
      requires Valid()
      modifies this, store
      ensures Valid()
      ensures Snapshot() == Checkout.SearchCommand(config, old(Snapshot()), from, now)
    {
      ghost var c0 := Snapshot();
      if config.password != "" && from.id !in sessions {
        StartCommand(from, now);
        return;
      }
      Post(from.id, Say(AskQuery));
      SetState(from.id, SearchingCourses);
      CommandsKeep(config, c0, from, now);
    }

    method HelpCommand(from: ChatUser)
      requires Valid()
      modifies this
      ensures Valid()
      ensures Snapshot() == Checkout.HelpCommand(old(Snapshot()), from)
    {
      Post(from.id, Say(Help));
    }

    method ShowCourseDetails(from: ChatUser, courseId: int)
      requires Valid()
      modifies this
      ensures Valid()
      ensures Snapshot() == Checkout.ShowCourseDetails(old(Snapshot()), from, courseId)
    {
      ghost var c0 := Snapshot();
      if ActiveCourse(store.Snapshot(), courseId).None? {
        Post(from.id, Say(CourseNotFound));
      } else {
        SetState(from.id, ViewingCourses);
        Post(from.id, CourseCard(courseId));
      }
      BrowsingKeeps(c0, from, courseId, "");
    }

    method ShowCoursesInCategory(from: ChatUser, categoryId: int)
      requires Valid()
      modifies this
      ensures Valid()
      ensures Snapshot() == Checkout.ShowCoursesInCategory(old(Snapshot()), from, categoryId)
    {
      ghost var c0 := Snapshot();
      if categoryId !in store.categories {
        Post(from.id, Say(CategoryNotFound));
        BrowsingKeeps(c0, from, categoryId, "");
        return;
      }
      var courses := CoursesInCategory(store.Snapshot(), categoryId);
      if courses == {} {
        Post(from.id, Say(CategoryEmpty));
      } else {
        SetState(from.id, ViewingCourses);
        Post(from.id, CourseMenu(courses));
      }
      BrowsingKeeps(c0, from, categoryId, "");
    }

    method ShowCategoriesMenu(from: ChatUser)
      requires Valid()
      modifies this
      ensures Valid()
      ensures Snapshot() == Checkout.ShowCategoriesMenu(old(Snapshot()), from)
    {
      ghost var c0 := Snapshot();
      var categories := CategoriesWithActive(store.Snapshot());
      if categories == {} {
        Post(from.id, Say(NoCategories));
      } else {
        SetState(from.id, ViewingCourses);
        Post(from.id, CategoryMenu(categories));
      }
      BrowsingKeeps(c0, from, 0, "");
    }

    method HandleCourseSearch(from: ChatUser, query: string)
      requires Valid()
      modifies this
      ensures Valid()
      ensures Snapshot() == Checkout.CourseSearch(old(Snapshot()), from, query)
    {
      ghost var c0 := Snapshot();
      var found := SearchResults(store.Snapshot(), query);
      if found == {} {
        Post(from.id, Say(NoResults));
        SetState(from.id, Idle);
      } else {
        Post(from.id, CourseMenu(found));
        SetState(from.id, ViewingCourses);
      }
      BrowsingKeeps(c0, from, 0, query);
    }

    method ShowPaymentOptions(from: ChatUser, courseId: int)
      requires Valid()
      modifies this
      ensures Valid()
      ensures Snapshot() == Checkout.ShowPaymentOptions(config, old(Snapshot()), from, courseId)
    {
      ghost var c0 := Snapshot();
      var course := ActiveCourse(store.Snapshot(), courseId);
      if course.None? {
        Post(from.id, Say(CourseNotFound));
      } else if course.value.isFree {
        Post(from.id, CourseLink(courseId, true));
        SetState(from.id, Idle);
      } else {
        var offered := OfferedPaymentMethods(course.value.paymentOptions, config.payments);
        var buttons := PaymentKeyboard(offered);
        Post(from.id, PaymentMenu(courseId, buttons));
        SetState(from.id, SelectingPayment);
      }
      OptionsKeep(config, c0, from, courseId);
    }

    method HandlePaymentSelection(from: ChatUser, paymentMethod: string, courseId: int)
      requires Valid()
      modifies this
      ensures Valid()
      ensures Snapshot() == Checkout.ChoosePaymentMethod(old(Snapshot()), from, paymentMethod, courseId)
    {
      ghost var c0 := Snapshot();
      if ActiveCourse(store.Snapshot(), courseId).None? {
        Post(from.id, Say(CourseNotFound));
      } else if paymentMethod == "gift" {
        Post(from.id, GiftPrompt(courseId));
        sessions := sessions[from.id := Session(EnteringGiftCode, Some(courseId), Some(paymentMethod))];
      } else {
        sessions := sessions[from.id := Session(SendingProof, Some(courseId), Some(paymentMethod))];
        Post(from.id, Instructions(courseId, paymentMethod));
      }
      ChooseKeeps(c0, from, paymentMethod, courseId);
    }

    method HandleCallback(from: ChatUser, data: string, now: Timestamp)
      requires Valid()
      modifies this, store
      ensures Valid()
      ensures Snapshot() == PressButton(config, old(Snapshot()), from, data, now)
    {
      match DecodeCallback(data)
      case None =>
      case Some(cb) => Dispatch(from, cb, now);
    }

    /** The branch of `handle_callback` a decoded press selects. */
    method Dispatch(from: ChatUser, cb: Callback, now: Timestamp)
      requires Valid()
      modifies this, store
      ensures Valid()
      ensures Snapshot() == Checkout.Dispatch(config, old(Snapshot()), from, cb, now)
    {
      ghost var c0 := Snapshot();
      match cb
      case ViewCourse(id) => ShowCourseDetails(from, id);
      case ViewCategory(id) => ShowCoursesInCategory(from, id);
      case CategoriesMenu => ShowCategoriesMenu(from);
      case AllCourses => CoursesCommand(from, now);
      case Buy(id) => ShowPaymentOptions(from, id);
      case SelectPayment(m, id) => HandlePaymentSelection(from, m, id);
      case Back =>
        Post(from.id, Say(MainMenu));
        SetState(from.id, Idle);
        Quiet(c0, from.id, Idle);
      case Cancel =>
        Post(from.id, Say(Cancelled));
        SetState(from.id, Idle);
        Quiet(c0, from.id, Idle);
      case AdminAction(_) =>
      case Ignored =>
    }

    /** Idle again, with the remembered course and method deleted. */
    method Finish(user: int)
      modifies this
      ensures sessions == Forget(WithState(old(sessions), user, Idle), user) && outbox == old(outbox)
    {
      SetState(user, Idle);
      sessions := sessions[user := Session(Idle, None, None)];
    }

    method HandleGiftCode(from: ChatUser, code: string, now: Timestamp)
      requires Valid()
      modifies this, store
      ensures Valid()
      ensures Snapshot() == SubmitGiftCode(old(Snapshot()), from, code, now)
    {
      ghost var c0 := Snapshot();
      var courseId := if from.id in sessions then sessions[from.id].course else None;
      if courseId.None? || courseId.value == 0 {
        Post(from.id, Say(GiftCodeError));
        SetState(from.id, Idle);
      } else if courseId.value !in store.courses {
        Post(from.id, Say(CourseNotFound));
        SetState(from.id, Idle);
      } else {
        var course := store.courses[courseId.value];
        var userId := store.GetOrCreateUser(from, now);
        EnsureUserFrame(c0.db, from, now);
        var p := Submitted(userId, courseId.value, "gift", None, course.price, now, Some(GiftDetails(code)));
        var paymentId := store.AddPayment(p);
        Post(from.id, Say(GiftCodeSubmitted));
        Finish(from.id);
      }
      GiftCodeKeeps(c0, from, code, now);
    }

    method HandlePhoto(from: ChatUser, validImage: bool, image: seq<bv8>, saved: Option<string>, now: Timestamp)
      requires Valid()
      modifies this, store
      ensures Valid()
      ensures Snapshot() == ReceivePhoto(config, old(Snapshot()), from, validImage, image, saved, now)
    {
      ghost var c0 := Snapshot();
      var u := from.id;
      if u !in sessions || sessions[u].state != SendingProof || sessions[u].course.None? {
        Post(u, Say(UnexpectedPhoto));
        return;
      }
      if !validImage {
        Post(u, Say(InvalidImage));
        return;
      }
      if DetectDuplicatePayment(image, u) {
        assert false;
      }
      if sessions[u].paymentMethod.None? {
        return;
      }
      var courseId := sessions[u].course.value;
      var paymentMethod := sessions[u].paymentMethod.value;
      SubmitProof(from, courseId, paymentMethod, saved, now);
      PhotoKeeps(config, c0, from, validImage, image, saved, now);
    }

    /** The payment row a proof photo creates, approved at once under auto-approval. */
    method SubmitProof(from: ChatUser, courseId: int, paymentMethod: string, saved: Option<string>, now: Timestamp)
      requires store.Valid()
      modifies this, store
      ensures Snapshot() == RecordProof(config, old(Snapshot()), from, courseId, paymentMethod, saved, now)
    {
      ghost var c0 := Snapshot();
      var u := from.id;
      var found := courseId in store.courses;
      var userId := store.GetOrCreateUser(from, now);
      ghost var db1 := store.Snapshot();
      EnsureUserFrame(c0.db, from, now);
      if !found {
        Post(u, Say(CourseNotFound));
        return;
      }
      if saved.None? || saved.value == [] {
        Post(u, Say(ProofNotSaved));
        return;
      }
      var price := store.courses[courseId].price;
      var p := Submitted(userId, courseId, paymentMethod, saved, price, now, None);
      var paymentId := store.AddPayment(p);
      if config.autoApprove {
        var approved := p.(status := Approved, approvalDate := Some(now));
        store.UpdatePayment(paymentId, approved);
        OverwriteInserted(db1, p, approved);
        Post(u, CourseLink(courseId, false));
      } else {
        Post(u, Say(ProofPending));
      }
      assert store.Snapshot() == InsertPayment(db1, ProofPayment(config.autoApprove, userId, courseId, paymentMethod, saved.value, price, now));
      Finish(u);
    }

    method ShowPurchases(from: ChatUser, now: Timestamp)
      requires Valid()
      modifies this, store
      ensures Valid()
      ensures Snapshot() == Checkout.ShowPurchases(old(Snapshot()), from, now)
    {
      ghost var c0 := Snapshot();
      var userId := store.GetOrCreateUser(from, now);
      Post(from.id, Purchases(ApprovedPurchases(store.Snapshot(), userId)));
      PurchasesKeep(c0, from, now);
    }

    method ShowDmcaPolicy(from: ChatUser)
      requires Valid()
      modifies this
      ensures Valid()
      ensures Snapshot() == ShowPolicy(old(Snapshot()), from)
    {
      ghost var c0 := Snapshot();
      var text := DefaultPolicy;
      if id :| id in store.settings && store.settings[id].key == PolicyKey {
        var value := store.settings[id].value;
        if value.Some? && value.value != [] {
          text := value.value;
        }
        assert id == (var j :| j in store.settings && store.settings[j].key == PolicyKey; j);
      }
      assert text == PolicyText(store.Snapshot());
      Post(from.id, Policy(text));
      PurchasesKeep(c0, from, 0);
    }

    method HandleRequestCourseButton(from: ChatUser)
      requires Valid()
      modifies this
      ensures Valid()
      ensures Snapshot() == RequestCourse(old(Snapshot()), from)
    {
      ghost var c0 := Snapshot();
      Post(from.id, Say(RequestPrompt));
      SetState(from.id, AwaitingCourseRequest);
      BrowsingKeeps(c0, from, 0, "");
    }

    /** `save_course_request`, with the cancel test compared against the lowered button text. */
    method SaveCourseRequest(from: ChatUser, text: string, now: Timestamp)
      requires Valid()
      modifies this, store
      ensures Valid()
      ensures Snapshot() == Checkout.SaveCourseRequest(old(Snapshot()), from, text, now)
    {
      ghost var c0 := Snapshot();
      var userId := store.GetOrCreateUser(from, now);
      if PyLower(text) == PyLower(CancelRequestButton) {
        Post(from.id, Say(RequestCancelled));
        SetState(from.id, Idle);
      } else {
        var requestId := store.AddRequest(CourseRequest(userId, text, now, false));
        Post(from.id, Say(RequestSaved));
        SetState(from.id, Idle);
      }
      RequestKeeps(c0, from, text, now, CancelsRequest(text));
    }

    method HandleText(from: ChatUser, text: string, now: Timestamp)
      requires Valid()
      modifies this, store
      ensures Valid()
      ensures Snapshot() == ReceiveText(config, old(Snapshot()), from, text, now)
    {
      ghost var c0 := Snapshot();
      var u := from.id;
      if StartsWith(text, "/") {
        return;
      }
      var st := if u in sessions then Some(sessions[u].state) else None;
      if st == Some(AwaitingPassword) {
        if text == config.password {
          SetState(u, Idle);
          Post(u, Say(PasswordAccepted));
          Quiet(c0, u, Idle);
        } else {
          Post(u, Say(WrongPassword));
          Quiet(c0, u, Idle);
        }
      } else if st == Some(SearchingCourses) {
        HandleCourseSearch(from, text);
      } else if st == Some(EnteringGiftCode) {
        HandleGiftCode(from, text, now);
      } else if st == Some(AwaitingCourseRequest) {
        SaveCourseRequest(from, text, now);
      } else if text == BrowseButton {
        CoursesCommand(from, now);
      } else if text == SearchButton {
        SearchCommand(from, now);
      } else if text == CategoriesButton {
        ShowCategoriesMenu(from);
      } else if text == PolicyButton {
        ShowDmcaPolicy(from);
      } else if text == RequestButton {
        HandleRequestCourseButton(from);
      } else if text == HelpButton {
        HelpCommand(from);
      } else if text == PurchasesButton {
        ShowPurchases(from, now);
      } else {
        var spam := IsSpam(text);
        if spam {
          Post(u, Say(SpamWarning));
        } else {
          Post(u, Say(NotUnderstood));
        }
        Quiet(c0, u, Idle);
      }
    }

    /** One update from one account, dispatched as the client library does. */
    method Handle(from: ChatUser, e: Event, now: Timestamp)
      requires Valid()
      modifies this, store
      ensures Valid()
      ensures Snapshot() == Step(config, old(Snapshot()), from, e, now)
    {
      match e
      case Started => StartCommand(from, now);
      case AskedCourses => CoursesCommand(from, now);
      case AskedHelp => HelpCommand(from);
      case AskedSearch => SearchCommand(from, now);
      case Pressed(data) => HandleCallback(from, data, now);
      case Typed(text) => HandleText(from, text, now);
      case SentPhoto(valid, image, saved) => HandlePhoto(from, valid, image, saved, now);
    }
  }
}
