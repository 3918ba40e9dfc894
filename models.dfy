/**
 * The records the storefront keeps (categories, users, courses, payments,
 * bot settings and course requests) and the gift-card code that a payment
 * derives from its free-text details.
 */
module Models {
  import opened Wrappers
  import opened Strings

  /** Instants are abstract; only their order and identity matter here. */
  type Timestamp = int

  datatype Category = Category(name: string)

  datatype User = User(
    telegramId: string,
    username: Option<string>,
    firstName: Option<string>,
    lastName: Option<string>,
    joined: Timestamp,
    isBanned: bool,
    banReason: Option<string>)

  datatype Course = Course(
    title: string,
    description: Option<string>,
    price: real,
    fileLink: string,
    categoryId: Option<int>,
    imageLink: Option<string>,
    qrCodeImage: Option<string>,
    isFree: bool,
    demoVideoLink: Option<string>,
    isActive: bool,
    /** Comma-separated method names; `None` or empty means "use the global ones". */
    paymentOptions: Option<string>)

  datatype Status = Pending | Approved | Rejected

  datatype Payment = Payment(
    userId: int,
    courseId: int,
    paymentMethod: string,
    proof: Option<string>,
    amount: real,
    status: Status,
    submitted: Timestamp,
    approvalDate: Option<Timestamp>,
    details: Option<string>)

  datatype BotSetting = BotSetting(key: string, value: Option<string>)

  datatype CourseRequest = CourseRequest(userId: int, text: string, timestamp: Timestamp, isFulfilled: bool)

  /** The chat account a message or button press comes from. */
  datatype ChatUser = ChatUser(id: int, username: Option<string>, firstName: Option<string>, lastName: Option<string>)

  /** A payment as a user submits it: the status column's default is pending. */
  function Submitted(userId: int, courseId: int, paymentMethod: string, proof: Option<string>,
                     amount: real, now: Timestamp, details: Option<string>): (p: Payment)
    ensures p.status == Pending && p.approvalDate == None
    ensures p.userId == userId && p.courseId == courseId && p.paymentMethod == paymentMethod
    ensures p.proof == proof && p.amount == amount && p.submitted == now && p.details == details
  {
    Payment(userId, courseId, paymentMethod, proof, amount, Pending, now, None, details)
  }

  // ------------------------------------------------------------ gift codes

  const GiftMarker: string := "Gift Card Code:"
  const RedeemedMarker: string := "[REDEEMED]"
  /** What the back office appends to a gift payment's details on approval. */
  const RedeemedSuffix: string := " [REDEEMED]"

  /** The details the bot stores for a submitted gift card code. */
  function GiftDetails(code: string): (d: string)
    ensures |d| == |GiftMarker| + 1 + |code| && d[..|GiftMarker|] == GiftMarker && d[|GiftMarker| + 1..] == code
  {
    GiftMarker + " " + code
  }

  /** `k` approvals' worth of redemption markers. */
  function Redeemed(k: nat): (r: string)
    ensures |r| == 11 * k
    ensures k > 0 ==> r[..2] == " [" && r[|r| - 1] == ']'
  {
    if k == 0 then [] else RedeemedSuffix + Redeemed(k - 1)
  }

  /**
   * `Payment.gift_card_code`: the details with every gift marker removed and
   * whitespace stripped, then, if a redemption marker is left, with every
   * redemption marker removed and stripped again; `None` unless the payment
   * is a gift payment whose non-empty details carry the gift marker.
   */
  function GiftCardCode(paymentMethod: string, details: Option<string>): (code: Option<string>)
    ensures code.Some? <==> paymentMethod == "gift" && details.Some? && details.value != [] && Contains(details.value, GiftMarker)
  {
    if paymentMethod == "gift" && details.Some? && details.value != [] && Contains(details.value, GiftMarker) then
      Some(SecondStage(Strip(Replace(details.value, GiftMarker, ""))))
    else None
  }

  function Spaces(k: nat): (s: string)
    ensures |s| == k && AllSpace(s)
  {
    if k == 0 then [] else " " + Spaces(k - 1)
  }

  lemma {:induction false} NoGiftLetterInRedeemed(k: nat)
    ensures 'G' !in Redeemed(k)
  {
    if k > 0 {
      NoGiftLetterInRedeemed(k - 1);
      assert 'G' !in RedeemedSuffix;
    }
  }

  /** Removing redemption markers from `k` of them leaves `k` spaces. */
  lemma {:induction false} RedeemedWithoutMarkers(k: nat)
    ensures Replace(Redeemed(k), RedeemedMarker, "") == Spaces(k)
  {
    if k > 0 {
      var rest := RedeemedMarker + Redeemed(k - 1);
      calc {
        Replace(Redeemed(k), RedeemedMarker, "");
        { assert RedeemedSuffix == [' '] + RedeemedMarker;
          ConcatAssoc([' '], RedeemedMarker, Redeemed(k - 1)); }
        Replace([' '] + rest, RedeemedMarker, "");
        { ReplaceSkipsChar(' ', rest, RedeemedMarker, ""); }
        [' '] + Replace(rest, RedeemedMarker, "");
        { ReplaceAtStart(RedeemedMarker, Redeemed(k - 1), ""); }
        [' '] + ("" + Replace(Redeemed(k - 1), RedeemedMarker, ""));
        { RedeemedWithoutMarkers(k - 1); assert "" + Spaces(k - 1) == Spaces(k - 1); }
        [' '] + Spaces(k - 1);
      }
    }
  }

  lemma SpacesStripToEmpty(k: nat)
    ensures Strip(Spaces(k)) == []
  {
    LStripSpaces(Spaces(k), []);
    assert Spaces(k) + [] == Spaces(k);
  }

  /** The gift marker cannot run from the text typed by the user into the redemption markers. */
  lemma GiftMarkerDoesNotStraddle(a: string, k: nat)
    ensures NoStraddle(a, Redeemed(k), GiftMarker)
  {
    var r := Redeemed(k);
    var g := GiftMarker;
    forall i | 0 <= i < |a| < i + |g|
      ensures !OccursAt(a + r, g, i)
    {
      if i + |g| <= |a + r| {
        var j := |a| - i;
        assert r == RedeemedSuffix + Redeemed(k - 1);
        assert (a + r)[|a|] == ' ';
        assert (a + r)[i..i + |g|][j] == ' ';
        if j + 1 < |g| {
          assert (a + r)[|a| + 1] == '[';
          assert (a + r)[i..i + |g|][j + 1] == '[';
          assert g[j + 1] in g;
        } else {
          assert g[j] == ':';
        }
      }
    }
  }

  /** A redemption marker cannot run from the code into the markers after it. */
  lemma RedeemedMarkerDoesNotStraddle(a: string, k: nat)
    ensures NoStraddle(a, Redeemed(k), RedeemedMarker)
  {
    var r := Redeemed(k);
    var m := RedeemedMarker;
    forall i | 0 <= i < |a| < i + |m|
      ensures !OccursAt(a + r, m, i)
    {
      if i + |m| <= |a + r| {
        assert r == RedeemedSuffix + Redeemed(k - 1);
        assert (a + r)[i..i + |m|][|a| - i] == ' ';
        assert m[|a| - i] in m;
      }
    }
  }

  lemma NoGiftMarkerAtStartOfSpace(c: string)
    ensures NoStraddle(" ", c, GiftMarker)
  {
    forall i | 0 <= i < 1 < i + |GiftMarker|
      ensures !OccursAt(" " + c, GiftMarker, i)
    {
      assert (" " + c)[0] == ' ';
    }
  }

  /** Stage one of the extraction: the gift marker goes, the user's text and the markers stay. */
  lemma GiftMarkerRemoved(c: string, k: nat)
    requires !Contains(c, GiftMarker)
    ensures Replace(GiftDetails(c) + Redeemed(k), GiftMarker, "") == " " + c + Redeemed(k)
  {
    var r := Redeemed(k);
    assert GiftDetails(c) + r == GiftMarker + (" " + c + r);
    ReplaceAtStart(GiftMarker, " " + c + r, "");
    GiftMarkerDoesNotStraddle(" " + c, k);
    ReplaceConcat(" " + c, r, GiftMarker, "");
    NoGiftMarkerAtStartOfSpace(c);
    ReplaceConcat(" ", c, GiftMarker, "");
    ReplaceAbsent(c, GiftMarker, "");
    NoGiftLetterInRedeemed(k);
    NotContainsWithoutFirstChar(r, GiftMarker);
    ReplaceAbsent(r, GiftMarker, "");
  }

  /** The first stage of the extraction applied to stored details. */
  lemma FirstStage(c: string, k: nat)
    requires !Contains(c, GiftMarker)
    ensures Contains(GiftDetails(c) + Redeemed(k), GiftMarker)
    ensures Strip(Replace(GiftDetails(c) + Redeemed(k), GiftMarker, "")) == Strip(c + Redeemed(k))
  {
    MarkerAtStart(GiftDetails(c), Redeemed(k));
    GiftMarkerRemoved(c, k);
    ConcatAssoc(" ", c, Redeemed(k));
    StripLeadingSpaces(" ", c + Redeemed(k));
  }

  lemma MarkerAtStart(g: string, r: string)
    requires |g| >= |GiftMarker| && g[..|GiftMarker|] == GiftMarker
    ensures Contains(g + r, GiftMarker)
  {
    assert g + r == GiftMarker + (g[|GiftMarker|..] + r);
    PrefixOccurs(GiftMarker, g[|GiftMarker|..] + r);
  }

  /** The second stage of the extraction, as `gift_card_code` applies it after the first. */
  function SecondStage(stripped: string): string {
    if Contains(stripped, RedeemedMarker) then Strip(Replace(stripped, RedeemedMarker, "")) else stripped
  }

  /** With no approval yet, the first stage already gives the code. */
  lemma SecondStageUnapproved(c: string)
    requires Trimmed(c) && !Contains(c, RedeemedMarker)
    ensures SecondStage(Strip(c + Redeemed(0))) == c
  {
    assert c + Redeemed(0) == c;
    StripTrimmed(c);
  }

  lemma StripRedeemed(k: nat)
    requires k > 0
    ensures Strip(Redeemed(k)) == RedeemedMarker + Redeemed(k - 1)
  {
    var rest := RedeemedMarker + Redeemed(k - 1);
    assert RedeemedSuffix == " " + RedeemedMarker;
    ConcatAssoc(" ", RedeemedMarker, Redeemed(k - 1));
    StripLeadingSpaces(" ", rest);
    assert Trimmed(rest) by {
      assert rest[0] == '[';
      assert rest[|rest| - 1] == ']' by {
        if k > 1 {
          assert rest[|rest| - 1] == Redeemed(k - 1)[|Redeemed(k - 1)| - 1];
        }
      }
    }
    StripTrimmed(rest);
  }

  /** An empty code with approvals: the markers and their spaces all go. */
  lemma SecondStageEmptyCode(k: nat)
    requires k > 0
    ensures SecondStage(Strip([] + Redeemed(k))) == []
  {
    var rest := RedeemedMarker + Redeemed(k - 1);
    calc {
      SecondStage(Strip([] + Redeemed(k)));
      { assert [] + Redeemed(k) == Redeemed(k); StripRedeemed(k); }
      SecondStage(rest);
      { PrefixOccurs(RedeemedMarker, Redeemed(k - 1)); }
      Strip(Replace(rest, RedeemedMarker, ""));
      { ReplaceAtStart(RedeemedMarker, Redeemed(k - 1), "");
        RedeemedWithoutMarkers(k - 1);
        assert "" + Spaces(k - 1) == Spaces(k - 1); }
      Strip(Spaces(k - 1));
      { SpacesStripToEmpty(k - 1); }
      [];
    }
  }

  /** Approved details are already stripped and hold the redeemed marker. */
  lemma ApprovedDetailsShape(c: string, k: nat)
    requires k > 0 && c != [] && Trimmed(c)
    ensures Strip(c + Redeemed(k)) == c + Redeemed(k)
    ensures Contains(c + Redeemed(k), RedeemedMarker)
  {
    var r := Redeemed(k);
    assert r == RedeemedSuffix + Redeemed(k - 1);
    assert (c + r)[|c + r| - 1] == ']';
    assert (c + r)[0] == c[0];
    StripTrimmed(c + r);
    assert (c + r)[|c| + 1..|c| + 1 + |RedeemedMarker|] == RedeemedMarker;
    assert OccursAt(c + r, RedeemedMarker, |c| + 1);
  }

  /** Removing the redeemed markers leaves the code followed by spaces. */
  lemma RemoveRedeemedMarkers(c: string, k: nat)
    requires !Contains(c, RedeemedMarker)
    ensures Replace(c + Redeemed(k), RedeemedMarker, "") == c + Spaces(k)
  {
    RedeemedMarkerDoesNotStraddle(c, k);
    ReplaceConcat(c, Redeemed(k), RedeemedMarker, "");
    ReplaceAbsent(c, RedeemedMarker, "");
    RedeemedWithoutMarkers(k);
  }

  lemma SecondStageApproved(c: string, k: nat)
    requires k > 0 && c != [] && Trimmed(c) && !Contains(c, RedeemedMarker)
    ensures SecondStage(Strip(c + Redeemed(k))) == c
  {
    ApprovedDetailsShape(c, k);
    RemoveRedeemedMarkers(c, k);
    StripTrailingSpaces(c, Spaces(k));
    StripTrimmed(c);
  }

  /**
   * The gift card code round trip: for a code typed without surrounding
   * whitespace and without either marker, the details the bot stores give the
   * code back, however many times the payment has since been approved.
   */
  lemma GiftCodeRoundTrip(c: string, k: nat)
    requires Trimmed(c) && !Contains(c, GiftMarker) && !Contains(c, RedeemedMarker)
    ensures GiftCardCode("gift", Some(GiftDetails(c) + Redeemed(k))) == Some(c)
  {
    FirstStage(c, k);
    if k == 0 {
      SecondStageUnapproved(c);
    } else if c == [] {
      SecondStageEmptyCode(k);
    } else {
      SecondStageApproved(c, k);
    }
  }
}
