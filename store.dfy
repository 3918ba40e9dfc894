/**
 * The database the bot and the back office share: one table per record type,
 * keyed by row id.  `Tables` is the content as a value; `RecordStore` is the
 * session object the handlers change in place.
 */
module Store {
  import opened Wrappers
  import opened Strings
  import opened Models

  datatype Tables = Tables(
    users: map<int, User>,
    courses: map<int, Course>,
    categories: map<int, Category>,
    payments: map<int, Payment>,
    requests: map<int, CourseRequest>,
    settings: map<int, BotSetting>,
    nextUser: int,
    nextCourse: int,
    nextCategory: int,
    nextPayment: int,
    nextRequest: int,
    nextSetting: int)

  /** Every row id is positive and below the id the table hands out next. */
  predicate KeysBelow<T>(m: map<int, T>, next: int) {
    1 <= next && forall id :: id in m ==> 1 <= id < next
  }

  /** `users.telegram_id` is unique. */
  predicate UniqueTelegramIds(users: map<int, User>) {
    forall a, b :: a in users && b in users && users[a].telegramId == users[b].telegramId ==> a == b
  }

  /** No two categories have names equal under SQL's `lower()`. */
  predicate UniqueCategoryNames(categories: map<int, Category>) {
    forall a, b :: a in categories && b in categories && Lower(categories[a].name) == Lower(categories[b].name) ==> a == b
  }

  /** `bot_settings.key` is unique. */
  predicate UniqueSettingKeys(settings: map<int, BotSetting>) {
    forall a, b :: a in settings && b in settings && settings[a].key == settings[b].key ==> a == b
  }

  /** Every payment names a course and a user that exist. */
  predicate PaymentsReferToRecords(t: Tables) {
    forall id :: id in t.payments ==> t.payments[id].courseId in t.courses && t.payments[id].userId in t.users
  }

  predicate RequestsReferToUsers(t: Tables) {
    forall id :: id in t.requests ==> t.requests[id].userId in t.users
  }

  /** A course that is not free has a positive price. */
  predicate PricedUnlessFree(courses: map<int, Course>) {
    forall id :: id in courses ==> courses[id].isFree || courses[id].price > 0.0
  }

  predicate Consistent(t: Tables) {
    && KeysBelow(t.users, t.nextUser)
    && KeysBelow(t.courses, t.nextCourse)
    && KeysBelow(t.categories, t.nextCategory)
    && KeysBelow(t.payments, t.nextPayment)
    && KeysBelow(t.requests, t.nextRequest)
    && KeysBelow(t.settings, t.nextSetting)
    && UniqueTelegramIds(t.users)
    && UniqueCategoryNames(t.categories)
    && UniqueSettingKeys(t.settings)
    && PaymentsReferToRecords(t)
    && RequestsReferToUsers(t)
    && PricedUnlessFree(t.courses)
  }

  const EmptyTables: Tables := Tables(map[], map[], map[], map[], map[], map[], 1, 1, 1, 1, 1, 1)

  lemma EmptyIsConsistent()
    ensures Consistent(EmptyTables)
  {}

  // --------------------------------------------------------------- users

  ghost predicate HasUser(t: Tables, telegramId: string) {
    exists id :: id in t.users && t.users[id].telegramId == telegramId
  }

  /** The row of the user with this chat id; unique in a consistent database. */
  ghost function UserIdOf(t: Tables, telegramId: string): (id: int)
    requires HasUser(t, telegramId)
    ensures id in t.users && t.users[id].telegramId == telegramId
  {
    var id :| id in t.users && t.users[id].telegramId == telegramId; id
  }

  /** The user row `get_or_create_user` inserts for an unknown account. */
  function NewUser(from: ChatUser, now: Timestamp): (u: User)
    ensures u.telegramId == IntString(from.id) && !u.isBanned && u.banReason == None && u.joined == now
  {
    User(IntString(from.id), from.username, from.firstName, from.lastName, now, false, None)
  }

  function InsertUser(t: Tables, u: User): Tables {
    t.(users := t.users[t.nextUser := u], nextUser := t.nextUser + 1)
  }

  /** The database after `get_or_create_user(from)`. */
  ghost function EnsureUser(t: Tables, from: ChatUser, now: Timestamp): Tables {
    if HasUser(t, IntString(from.id)) then t else InsertUser(t, NewUser(from, now))
  }

  /**
   * The row id `get_or_create_user(from)` returns: the existing row for the
   * account, or the id the insert hands out.
   */
  ghost function EnsuredUserId(t: Tables, from: ChatUser, now: Timestamp): (id: int)
    ensures var t' := EnsureUser(t, from, now); id in t'.users && t'.users[id].telegramId == IntString(from.id)
    ensures !HasUser(t, IntString(from.id)) ==> id == t.nextUser && EnsureUser(t, from, now).users[id] == NewUser(from, now)
  {
    if HasUser(t, IntString(from.id)) then UserIdOf(t, IntString(from.id)) else t.nextUser
  }

  /** A user with a chat id not yet on file can be added without breaking consistency. */
  lemma InsertUserConsistent(t: Tables, u: User)
    requires Consistent(t) && !HasUser(t, u.telegramId)
    ensures Consistent(InsertUser(t, u))
  {
    var t' := InsertUser(t, u);
    forall a, b | a in t'.users && b in t'.users && t'.users[a].telegramId == t'.users[b].telegramId
      ensures a == b
    {
      if a != t.nextUser && b != t.nextUser {
        assert t.users[a].telegramId == t.users[b].telegramId;
      }
    }
  }

  /** `get_or_create_user` leaves the account on file and the database consistent. */
  lemma EnsureUserFacts(t: Tables, from: ChatUser, now: Timestamp)
    requires Consistent(t)
    ensures Consistent(EnsureUser(t, from, now))
    ensures HasUser(EnsureUser(t, from, now), IntString(from.id))
  {
    var u := NewUser(from, now);
    if !HasUser(t, u.telegramId) {
      InsertUserConsistent(t, u);
      assert InsertUser(t, u).users[t.nextUser].telegramId == u.telegramId;
    }
  }

  /**
   * `get_or_create_user` adds at most one row, changes no existing row and
   * touches no other table.
   */
  lemma EnsureUserFrame(t: Tables, from: ChatUser, now: Timestamp)
    requires Consistent(t)
    ensures var t' := EnsureUser(t, from, now);
      && t'.users.Keys >= t.users.Keys
      && |t'.users.Keys - t.users.Keys| <= 1
      && (forall id :: id in t.users ==> t'.users[id] == t.users[id])
      && t' == t.(users := t'.users, nextUser := t'.nextUser)
  {
    if !HasUser(t, IntString(from.id)) {
      var t' := InsertUser(t, NewUser(from, now));
      assert t'.users.Keys - t.users.Keys == {t.nextUser};
    }
  }

  // ------------------------------------------------------------ payments

  function InsertPayment(t: Tables, p: Payment): Tables {
    t.(payments := t.payments[t.nextPayment := p], nextPayment := t.nextPayment + 1)
  }

  lemma InsertPaymentConsistent(t: Tables, p: Payment)
    requires Consistent(t) && p.courseId in t.courses && p.userId in t.users
    ensures Consistent(InsertPayment(t, p))
    ensures InsertPayment(t, p).payments.Keys == t.payments.Keys + {t.nextPayment}
    ensures t.nextPayment !in t.payments
  {}

  /** Overwriting the row just inserted is inserting the new row instead. */
  lemma OverwriteInserted(t: Tables, p: Payment, q: Payment)
    ensures var t' := InsertPayment(t, p);
      t'.(payments := t'.payments[t.nextPayment := q]) == InsertPayment(t, q)
  {
    assert t.payments[t.nextPayment := p][t.nextPayment := q] == t.payments[t.nextPayment := q];
  }

  function InsertRequest(t: Tables, r: CourseRequest): Tables {
    t.(requests := t.requests[t.nextRequest := r], nextRequest := t.nextRequest + 1)
  }

  lemma InsertRequestConsistent(t: Tables, r: CourseRequest)
    requires Consistent(t) && r.userId in t.users
    ensures Consistent(InsertRequest(t, r))
    ensures InsertRequest(t, r).requests.Keys == t.requests.Keys + {t.nextRequest}
  {}

  function InsertCourse(t: Tables, c: Course): Tables {
    t.(courses := t.courses[t.nextCourse := c], nextCourse := t.nextCourse + 1)
  }

  function InsertCategory(t: Tables, c: Category): Tables {
    t.(categories := t.categories[t.nextCategory := c], nextCategory := t.nextCategory + 1)
  }

  function InsertSetting(t: Tables, s: BotSetting): Tables {
    t.(settings := t.settings[t.nextSetting := s], nextSetting := t.nextSetting + 1)
  }

  /** The database session: the tables as fields the handlers update in place. */
  class RecordStore {
    var users: map<int, User>
    var courses: map<int, Course>
    var categories: map<int, Category>
    var payments: map<int, Payment>
    var requests: map<int, CourseRequest>
    var settings: map<int, BotSetting>
    var nextUser: int
    var nextCourse: int
    var nextCategory: int
    var nextPayment: int
    var nextRequest: int
    var nextSetting: int

    function Snapshot(): Tables
      reads this
    {
      Tables(users, courses, categories, payments, requests, settings,
             nextUser, nextCourse, nextCategory, nextPayment, nextRequest, nextSetting)
    }

    predicate Valid()
      reads this
    {
      Consistent(Snapshot())
    }

    /** Replaces the whole content; every mutation below goes through here. */
    method Commit(t: Tables)
      modifies this
      ensures Snapshot() == t
    {
      ReplaceRows(t);
      nextUser, nextCourse, nextCategory, nextPayment, nextRequest, nextSetting :=
        t.nextUser, t.nextCourse, t.nextCategory, t.nextPayment, t.nextRequest, t.nextSetting;
    }

    /** The rows half of `Commit`: every table replaced, the id counters left to the caller. */
    method ReplaceRows(t: Tables)
      modifies this
      ensures users == t.users && courses == t.courses && categories == t.categories
      ensures payments == t.payments && requests == t.requests && settings == t.settings
    {
      users, courses, categories, payments, requests, settings := t.users, t.courses, t.categories, t.payments, t.requests, t.settings;
    }

    constructor ()
      ensures Valid() && Snapshot() == EmptyTables
    {
      users, courses, categories, payments, requests, settings := map[], map[], map[], map[], map[], map[];
      nextUser, nextCourse, nextCategory, nextPayment, nextRequest, nextSetting := 1, 1, 1, 1, 1, 1;
    }

    /** `get_or_create_user`: the row for the account, inserted first if there is none. */
    method GetOrCreateUser(from: ChatUser, now: Timestamp) returns (id: int)
      requires Valid()
      modifies this
      ensures Valid()
      ensures Snapshot() == EnsureUser(old(Snapshot()), from, now)
      ensures id in users && users[id].telegramId == IntString(from.id)
      ensures id == EnsuredUserId(old(Snapshot()), from, now)
    {
      var tg := IntString(from.id);
      EnsureUserFacts(Snapshot(), from, now);
      if id' :| id' in users && users[id'].telegramId == tg {
        id := id';
      } else {
        id := nextUser;
        Commit(InsertUser(Snapshot(), NewUser(from, now)));
      }
    }

    /** Adds one payment row and returns its id. */
    method AddPayment(p: Payment) returns (id: int)
      requires Valid() && p.courseId in courses && p.userId in users
      modifies this
      ensures Valid()
      ensures Snapshot() == InsertPayment(old(Snapshot()), p)
      ensures id == old(nextPayment) && id !in old(payments) && payments[id] == p
    {
      id := nextPayment;
      InsertPaymentConsistent(Snapshot(), p);
      Commit(InsertPayment(Snapshot(), p));
    }

    /** Overwrites the payment row `id`, as setting its columns and committing does. */
    method UpdatePayment(id: int, p: Payment)
      modifies this
      ensures Snapshot() == old(Snapshot()).(payments := old(payments)[id := p])
    {
      payments := payments[id := p];
    }

    /** Adds one course request row and returns its id. */
    method AddRequest(r: CourseRequest) returns (id: int)
      requires Valid() && r.userId in users
      modifies this
      ensures Valid()
      ensures Snapshot() == InsertRequest(old(Snapshot()), r)
      ensures id == old(nextRequest) && requests[id] == r
    {
      id := nextRequest;
      InsertRequestConsistent(Snapshot(), r);
      Commit(InsertRequest(Snapshot(), r));
    }
  }
}
