/**
 * The data strings carried by the bot's inline buttons, and how
 * `handle_callback` reads them back: prefix tests in a fixed order, with
 * `int()` on the id after the prefix.
 */
module Callbacks {
  import opened Wrappers
  import opened Strings

  const CourseTag: string := "course_"
  const BuyTag: string := "buy_"
  const PaymentTag: string := "payment_"
  const AdminTag: string := "admin_"
  const BackTag: string := "back"
  const CancelTag: string := "cancel"
  const CategoryCoursesTag: string := "cat_courses_"
  const AllCoursesTag: string := "back_courses"
  const CategoriesMenuTag: string := "show_cat_menu"

  /** What a button press asks for. */
  datatype Callback =
    | ViewCourse(courseId: int)
    | ViewCategory(categoryId: int)
    | CategoriesMenu
    | AllCourses
    | Buy(courseId: int)
    | SelectPayment(paymentMethod: string, courseId: int)
    | Back
    | Cancel
    | AdminAction(rest: string)
    | Ignored

  /**
   * `handle_callback`'s dispatch.  `None` where the handler raises: `int()`
   * on text that is not a number, or a `payment_` string with no `_` after
   * the method name.
   */
  function DecodeCallback(data: string): Option<Callback> {
    if StartsWith(data, CourseTag) then
      match ParseInt(data[|CourseTag|..])
      case Some(n) => Some(ViewCourse(n))
      case None => None
    else if StartsWith(data, CategoryCoursesTag) then
      match ParseInt(data[|CategoryCoursesTag|..])
      case Some(n) => Some(ViewCategory(n))
      case None => None
    else if data == CategoriesMenuTag then Some(CategoriesMenu)
    else if data == AllCoursesTag then Some(AllCourses)
    else if StartsWith(data, BuyTag) then
      match ParseInt(data[|BuyTag|..])
      case Some(n) => Some(Buy(n))
      case None => None
    else if StartsWith(data, PaymentTag) then
      var parts := Split(data[|PaymentTag|..], '_');
      if |parts| < 2 then None
      else match ParseInt(parts[1])
        case Some(n) => Some(SelectPayment(parts[0], n))
        case None => None
    else if data == BackTag then Some(Back)
    else if data == CancelTag then Some(Cancel)
    else if StartsWith(data, AdminTag) then Some(AdminAction(data[|AdminTag|..]))
    else Some(Ignored)
  }

  /** The data string the bot puts on a button (the empty string for one no branch reads). */
  function EncodeCallback(cb: Callback): string {
    match cb
    case ViewCourse(id) => CourseTag + IntString(id)
    case ViewCategory(id) => CategoryCoursesTag + IntString(id)
    case CategoriesMenu => CategoriesMenuTag
    case AllCourses => AllCoursesTag
    case Buy(id) => BuyTag + IntString(id)
    case SelectPayment(m, id) => PaymentTag + m + "_" + IntString(id)
    case Back => BackTag
    case Cancel => CancelTag
    case AdminAction(rest) => AdminTag + rest
    case Ignored => ""
  }

  /** A payment method name the `payment_` data can carry: no `_` inside it. */
  predicate Encodable(cb: Callback) {
    cb.SelectPayment? ==> '_' !in cb.paymentMethod
  }

  lemma StartsWithTag(tag: string, rest: string)
    ensures StartsWith(tag + rest, tag) && (tag + rest)[|tag|..] == rest
  {
    assert (tag + rest)[..|tag|] == tag;
  }

  /** No decimal text contains `_`. */
  lemma NoUnderscoreInIntString(n: int)
    ensures '_' !in IntString(n)
  {
    var s := IntString(n);
    var d := if n < 0 then DecimalOf(-n) else DecimalOf(n);
    assert s == (if n < 0 then "-" else "") + d;
    forall i | 0 <= i < |d| ensures d[i] != '_' {
      assert IsDigit(d[i]);
    }
  }

  lemma DecodeViewCourse(id: int)
    ensures DecodeCallback(EncodeCallback(ViewCourse(id))) == Some(ViewCourse(id))
  {
    StartsWithTag(CourseTag, IntString(id));
    ParseIntString(id);
  }

  lemma DecodeViewCategory(id: int)
    ensures DecodeCallback(EncodeCallback(ViewCategory(id))) == Some(ViewCategory(id))
  {
    var d := EncodeCallback(ViewCategory(id));
    StartsWithTag(CategoryCoursesTag, IntString(id));
    assert d[1] == 'a';
    ParseIntString(id);
  }

  lemma DecodeBuy(id: int)
    ensures DecodeCallback(EncodeCallback(Buy(id))) == Some(Buy(id))
  {
    var d := EncodeCallback(Buy(id));
    StartsWithTag(BuyTag, IntString(id));
    assert d[0] == 'b' && d[1] == 'u';
    Differs(d, CourseTag, 0);
    Differs(d, CategoryCoursesTag, 0);
    assert d != AllCoursesTag by {
      assert AllCoursesTag[1] == 'a';
    }
    ParseIntString(id);
  }

  /** Data starting with `payment_` reaches the payment branch, which reads the method and the id after it. */
  lemma DecodePaymentData(body: string)
    ensures var parts := Split(body, '_');
      |parts| >= 2 && ParseInt(parts[1]).Some? ==>
        DecodeCallback(PaymentTag + body) == Some(SelectPayment(parts[0], ParseInt(parts[1]).value))
  {
    var d := PaymentTag + body;
    StartsWithTag(PaymentTag, body);
    assert d[0] == 'p';
    Differs(d, CourseTag, 0);
    Differs(d, CategoryCoursesTag, 0);
    Differs(d, BuyTag, 0);
  }

  lemma DecodeSelectPayment(m: string, id: int)
    requires '_' !in m
    ensures DecodeCallback(EncodeCallback(SelectPayment(m, id))) == Some(SelectPayment(m, id))
  {
    var n := IntString(id);
    assert EncodeCallback(SelectPayment(m, id)) == PaymentTag + (m + ['_'] + n);
    NoUnderscoreInIntString(id);
    assert Split(m + ['_'] + n, '_') == [m, n] by {
      SplitAtSep(m, n, '_');
      SplitWithoutSep(m, '_');
      SplitWithoutSep(n, '_');
    }
    ParseIntString(id);
    DecodePaymentData(m + ['_'] + n);
  }

  lemma DecodeAdmin(rest: string)
    ensures DecodeCallback(EncodeCallback(AdminAction(rest))) == Some(AdminAction(rest))
  {
    var d := EncodeCallback(AdminAction(rest));
    StartsWithTag(AdminTag, rest);
    assert d[0] == 'a';
    Differs(d, CourseTag, 0);
    Differs(d, CategoryCoursesTag, 0);
    Differs(d, BuyTag, 0);
    Differs(d, PaymentTag, 0);
  }

  lemma Differs(s: string, tag: string, i: nat)
    requires i < |s| && i < |tag| && s[i] != tag[i]
    ensures !StartsWith(s, tag)
  {
    if |tag| <= |s| {
      assert s[..|tag|][i] == s[i];
    }
  }

  /** The tags that are whole strings are read back by their equality tests. */
  lemma DecodeFixed(cb: Callback)
    requires cb.CategoriesMenu? || cb.AllCourses? || cb.Back? || cb.Cancel? || cb.Ignored?
    ensures DecodeCallback(EncodeCallback(cb)) == Some(cb)
  {
    var d := EncodeCallback(cb);
    if !cb.Ignored? {
      Differs(d, CourseTag, if cb.Cancel? then 1 else 0);
      Differs(d, PaymentTag, 0);
      Differs(d, AdminTag, 0);
    }
    if cb.CategoriesMenu? {
      Differs(d, CategoryCoursesTag, 0);
      Differs(d, BuyTag, 0);
    } else if cb.AllCourses? || cb.Back? {
      Differs(d, CategoryCoursesTag, 0);
      Differs(d, BuyTag, 1);
    } else if cb.Cancel? {
      Differs(d, BuyTag, 0);
    }
  }

  /** Every button the bot builds is read back as the action it was built for. */
  lemma DecodeEncode(cb: Callback)
    requires Encodable(cb)
    ensures DecodeCallback(EncodeCallback(cb)) == Some(cb)
  {
    match cb
    case ViewCourse(id) => DecodeViewCourse(id);
    case ViewCategory(id) => DecodeViewCategory(id);
    case Buy(id) => DecodeBuy(id);
    case SelectPayment(m, id) => DecodeSelectPayment(m, id);
    case AdminAction(rest) => DecodeAdmin(rest);
    case _ => DecodeFixed(cb);
  }

  lemma SplitPaymentBody(m: string, id: int, extra: string)
    requires '_' !in m
    ensures Split(m + "_" + IntString(id) + "_" + extra, '_') == [m, IntString(id)] + Split(extra, '_')
  {
    var n := IntString(id);
    var tail := n + ['_'] + extra;
    NoUnderscoreInIntString(id);
    assert m + "_" + n + "_" + extra == m + ['_'] + tail;
    SplitAtSep(m, tail, '_');
    SplitWithoutSep(m, '_');
    assert Split(tail, '_') == [n] + Split(extra, '_') by {
      SplitAtSep(n, extra, '_');
      SplitWithoutSep(n, '_');
    }
  }

  /**
   * The method name is only the text up to the first `_`, and anything after
   * a further `_` is dropped, so different data strings select the same
   * payment.
   */
  lemma PaymentDataExtraFieldIgnored(m: string, id: int, extra: string)
    requires '_' !in m
    ensures DecodeCallback(PaymentTag + m + "_" + IntString(id) + "_" + extra) == Some(SelectPayment(m, id))
  {
    var body := m + "_" + IntString(id) + "_" + extra;
    assert PaymentTag + m + "_" + IntString(id) + "_" + extra == PaymentTag + body;
    SplitPaymentBody(m, id, extra);
    ParseIntString(id);
    DecodePaymentData(body);
  }
}
