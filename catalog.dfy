/**
 * The read-only queries behind the bot's menus: which courses and categories
 * a user is shown, what a search finds, which payment methods a course
 * offers and in what order its payment buttons appear.
 */
module Catalog {
  import opened Wrappers
  import opened Strings
  import opened SqlLike
  import opened Models
  import opened Store
  import Admin

  // ------------------------------------------------------------- lookups

  /** `query(Course).filter_by(id=id, is_active=True).first()`. */
  function ActiveCourse(t: Tables, id: int): (c: Option<Course>)
    ensures c.Some? <==> id in t.courses && t.courses[id].isActive
    ensures c.Some? ==> c.value == t.courses[id]
  {
    if id in t.courses && t.courses[id].isActive then Some(t.courses[id]) else None
  }

  /** `get_course_list_markup`: the active courses. */
  function ActiveCourses(t: Tables): (ids: set<int>)
    ensures forall id :: id in ids <==> ActiveCourse(t, id).Some?
  {
    set id | id in t.courses && t.courses[id].isActive
  }

  /** The active courses filed under a category. */
  function CoursesInCategory(t: Tables, categoryId: int): (ids: set<int>)
    ensures ids <= ActiveCourses(t)
    ensures forall id :: id in ids <==> id in ActiveCourses(t) && t.courses[id].categoryId == Some(categoryId)
  {
    set id | id in t.courses && t.courses[id].isActive && t.courses[id].categoryId == Some(categoryId)
  }

  /** `show_categories_menu`: the categories joined to at least one active course. */
  function CategoriesWithActive(t: Tables): set<int> {
    set c | c in t.categories && exists id :: id in t.courses && t.courses[id].isActive && t.courses[id].categoryId == Some(c)
  }

  /** A listed category always has a course to show, and every category with one is listed. */
  lemma CategoriesMenuShowsNonEmpty(t: Tables, categoryId: int)
    ensures categoryId in CategoriesWithActive(t) <==> categoryId in t.categories && exists id :: id in CoursesInCategory(t, categoryId)
  {
    if categoryId in t.categories && exists id :: id in CoursesInCategory(t, categoryId) {
      var id :| id in CoursesInCategory(t, categoryId);
      assert t.courses[id].isActive && t.courses[id].categoryId == Some(categoryId);
    }
    if categoryId in CategoriesWithActive(t) {
      var id :| id in t.courses && t.courses[id].isActive && t.courses[id].categoryId == Some(categoryId);
      assert id in CoursesInCategory(t, categoryId);
    }
  }

  /** `show_purchases`: the approved payments of a user whose course still exists. */
  function ApprovedPurchases(t: Tables, userId: int): (ids: set<int>)
    ensures forall id :: id in ids ==> id in t.payments && t.payments[id].status == Approved && t.payments[id].userId == userId
  {
    set id | id in t.payments && t.payments[id].userId == userId && t.payments[id].status == Approved
                               && t.payments[id].courseId in t.courses
  }

  // -------------------------------------------------------------- search

  /**
   * `handle_course_search`: the active courses whose title, or whose
   * category's name through the outer join, is `ilike '%query%'`.  A course
   * whose category row is missing joins to NULL, which matches nothing.
   */
  function SearchResults(t: Tables, query: string): (ids: set<int>)
    ensures ids <= ActiveCourses(t)
  {
    set id | id in t.courses && t.courses[id].isActive &&
      (ILike(t.courses[id].title, SearchPattern(query)) ||
       (t.courses[id].categoryId.Some? && t.courses[id].categoryId.value in t.categories &&
        ILike(t.categories[t.courses[id].categoryId.value].name, SearchPattern(query))))
  }

  /** Whether a course's title or category name contains the text, ignoring ASCII case. */
  predicate MentionedIn(t: Tables, id: int, query: string)
    requires id in t.courses
  {
    Contains(Lower(t.courses[id].title), Lower(query)) ||
    (t.courses[id].categoryId.Some? && t.courses[id].categoryId.value in t.categories &&
     Contains(Lower(t.categories[t.courses[id].categoryId.value].name), Lower(query)))
  }

  /**
   * For a query without `%` or `_`, search finds exactly the active courses
   * whose title or category name contains the query, ignoring case.
   */
  lemma SearchFindsExactlyMatches(t: Tables, query: string, id: int)
    requires NoWildcards(query)
    ensures id in SearchResults(t, query) <==> id in ActiveCourses(t) && MentionedIn(t, id, query)
  {
    if id in t.courses {
      ILikeSearchIsContains(t.courses[id].title, query);
      var c := t.courses[id].categoryId;
      if c.Some? && c.value in t.categories {
        ILikeSearchIsContains(t.categories[c.value].name, query);
      }
    }
  }

  /** The query is not escaped: a query of `%` lists every active course. */
  lemma PercentQueryListsAll(t: Tables)
    ensures SearchResults(t, "%") == ActiveCourses(t)
  {
    forall id | id in ActiveCourses(t)
      ensures id in SearchResults(t, "%")
    {
      var s := Lower(t.courses[id].title);
      assert Lower(SearchPattern("%")) == "%%%";
      LikeAnyRun(s);
      assert "%%%"[1..] == "%%" && "%%"[1..] == "%";
      assert Like(s, "%%");
      assert Like(s, "%%%");
      assert ILike(t.courses[id].title, SearchPattern("%"));
    }
  }

  // ----------------------------------------------------- payment methods

  /** `PAYMENT_OPTIONS`: addresses are enabled when non-empty, the last two are switches. */
  datatype PaymentConfig = PaymentConfig(upi: string, crypto: string, paypal: string, cod: bool, gift: bool)

  /** The number of payment methods the keyboard knows. */
  const MethodCount: nat := 5

  /** The method names, in the order the payment keyboard lists them. */
  function MethodName(k: nat): string
    requires k < MethodCount
  {
    if k == 0 then "upi" else if k == 1 then "crypto" else if k == 2 then "paypal"
    else if k == 3 then "cod" else "gift"
  }

  /** One of the five method names the keyboard has a button for. */
  predicate KnownMethod(m: string) {
    m == "upi" || m == "crypto" || m == "paypal" || m == "cod" || m == "gift"
  }

  /** The position of a method name in the keyboard order, `MethodCount` for any other name. */
  function Rank(m: string): (k: nat)
    ensures k <= MethodCount && (k < MethodCount <==> KnownMethod(m))
    ensures k < MethodCount ==> MethodName(k) == m
  {
    if m == "upi" then 0 else if m == "crypto" then 1 else if m == "paypal" then 2
    else if m == "cod" then 3 else if m == "gift" then 4 else 5
  }

  /** Names in strictly increasing keyboard position (so also without repeats). */
  predicate InMethodOrder(ms: seq<string>) {
    forall i :: 0 <= i < |ms| - 1 ==> Rank(ms[i]) < Rank(ms[i + 1])
  }

  /**
   * The method names before position `k` whose flag in `keep` is set,
   * appended one `if` at a time as the keyboard builders do.
   */
  function SelectUpTo(keep: seq<bool>, k: nat): seq<string>
    requires |keep| == MethodCount && k <= MethodCount
  {
    if k == 0 then []
    else SelectUpTo(keep, k - 1) + (if keep[k - 1] then [MethodName(k - 1)] else [])
  }

  lemma {:induction false} SelectUpToFacts(keep: seq<bool>, k: nat)
    requires |keep| == MethodCount && k <= MethodCount
    ensures forall m :: m in SelectUpTo(keep, k) <==> Rank(m) < k && keep[Rank(m)]
    ensures forall i :: 0 <= i < |SelectUpTo(keep, k)| ==> Rank(SelectUpTo(keep, k)[i]) < k
    ensures InMethodOrder(SelectUpTo(keep, k))
  {
    if k > 0 {
      SelectUpToFacts(keep, k - 1);
      var front := SelectUpTo(keep, k - 1);
      assert Rank(MethodName(k - 1)) == k - 1;
      if keep[k - 1] {
        assert SelectUpTo(keep, k) == front + [MethodName(k - 1)];
        forall i | 0 <= i < |front| ensures Rank(front[i]) < k - 1 {
          assert front[i] in front;
        }
      } else {
        assert SelectUpTo(keep, k) == front;
      }
    }
  }

  /** The method names whose flag is set, in that order. */
  function Select(keep: seq<bool>): (ms: seq<string>)
    requires |keep| == MethodCount
    ensures forall m :: m in ms <==> Rank(m) < MethodCount && keep[Rank(m)]
    ensures InMethodOrder(ms)
  {
    SelectUpToFacts(keep, MethodCount);
    SelectUpTo(keep, MethodCount)
  }

  predicate GloballyEnabled(cfg: PaymentConfig, m: string) {
    (m == "upi" && cfg.upi != "") || (m == "crypto" && cfg.crypto != "") || (m == "paypal" && cfg.paypal != "")
    || (m == "cod" && cfg.cod) || (m == "gift" && cfg.gift)
  }

  /** The global fallback list: the enabled methods, appended in the fixed order. */
  function GlobalMethods(cfg: PaymentConfig): (ms: seq<string>)
    ensures forall m :: m in ms <==> GloballyEnabled(cfg, m)
    ensures InMethodOrder(ms)
  {
    Select([cfg.upi != "", cfg.crypto != "", cfg.paypal != "", cfg.cod, cfg.gift])
  }

  /**
   * The methods a course offers: its comma-split `payment_options` when that
   * text is non-empty, otherwise the enabled global methods.
   */
  function OfferedMethods(options: Option<string>, cfg: PaymentConfig): (ms: seq<string>)
    ensures options.Some? && options.value != [] ==> |ms| >= 1 && Join(ms, ',') == options.value
    ensures !(options.Some? && options.value != []) ==> forall m :: m in ms <==> GloballyEnabled(cfg, m)
  {
    if options.Some? && options.value != [] then
      JoinSplit(options.value, ',');
      Split(options.value, ',')
    else GlobalMethods(cfg)
  }

  /** The payment buttons: one per known method the course offers, always in the fixed order. */
  function PaymentButtons(offered: seq<string>): (buttons: seq<string>)
    ensures forall m :: m in buttons <==> KnownMethod(m) && m in offered
    ensures InMethodOrder(buttons)
  {
    Select(["upi" in offered, "crypto" in offered, "paypal" in offered, "cod" in offered, "gift" in offered])
  }

  /** With no course-specific options, the buttons are exactly the enabled global methods, in order. */
  lemma FallbackButtonsAreGlobals(options: Option<string>, cfg: PaymentConfig)
    requires !(options.Some? && options.value != [])
    ensures PaymentButtons(OfferedMethods(options, cfg)) == GlobalMethods(cfg)
  {
    var offered := OfferedMethods(options, cfg);
    assert ["upi" in offered, "crypto" in offered, "paypal" in offered, "cod" in offered, "gift" in offered]
        == [cfg.upi != "", cfg.crypto != "", cfg.paypal != "", cfg.cod, cfg.gift];
  }

  /**
   * A course saved by the back office with a non-empty set of checked
   * options offers exactly those options and never falls back to the global
   * ones; its buttons are the known ones among them, in the fixed order.
   */
  lemma CourseOptionsOverrideGlobals(checked: seq<string>, cfg: PaymentConfig)
    requires checked != [] && forall k :: 0 <= k < |checked| ==> checked[k] != [] && ',' !in checked[k]
    ensures OfferedMethods(Admin.OptionsText(checked), cfg) == checked
    ensures forall m :: m in PaymentButtons(OfferedMethods(Admin.OptionsText(checked), cfg)) <==> KnownMethod(m) && m in checked
  {
    Admin.OptionsTextRoundTrip(checked);
    assert |Admin.OptionsText(checked).value| >= |checked[0]| > 0;
  }
}
