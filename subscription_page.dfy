/**
 * The membership page: a redeem-code box whose button dispatches on the code
 * as typed, and the label of the user's current tier.
 */
module SubscriptionPage {
  import opened Wrappers
  import opened Text
  import opened Profile

  const AdminCode: string := "AliTech2014"
  const GoldCode: string := "ALITECH-GOLD"

  /** What `handleClaim` does with a code. */
  datatype Claim = Ignored | OpenMaker | RedeemGold | Rejected

  /**
   * The dispatch of `handleClaim`: a blank code is ignored; otherwise the
   * code, untrimmed, opens the maker's panel, redeems gold, or is rejected.
   */
  function ClassifyCode(code: string): Claim {
    if Trim(code) == [] then Ignored
    else if code == AdminCode then OpenMaker
    else if code == GoldCode then RedeemGold
    else Rejected
  }

  /** Each outcome happens for exactly the codes it should: the two secret codes are not blank. */
  lemma ClassifyCodeCases(code: string)
    ensures ClassifyCode(code) == Ignored <==> IsBlank(code)
    ensures ClassifyCode(code) == OpenMaker <==> code == AdminCode
    ensures ClassifyCode(code) == RedeemGold <==> code == GoldCode
    ensures ClassifyCode(code) == Rejected <==> !IsBlank(code) && code != AdminCode && code != GoldCode
  {
    assert !IsWhitespace(AdminCode[0]) && !IsWhitespace(GoldCode[0]);
    assert !IsBlank(AdminCode) && !IsBlank(GoldCode);
  }

  /** A valid code with a space before or after it is rejected: the comparison is on the text as typed. */
  lemma PaddedCodeRejected(code: string)
    requires code == AdminCode || code == GoldCode
    ensures ClassifyCode(" " + code) == Rejected
    ensures ClassifyCode(code + " ") == Rejected
  {
    var before, after := " " + code, code + " ";
    assert before[1] == code[0] && after[0] == code[0];
    assert before[0] == ' ' != AdminCode[0] && before[0] != GoldCode[0];
    assert after[|after| - 1] == ' ' != AdminCode[|AdminCode| - 1] && after[|after| - 1] != GoldCode[|GoldCode| - 1];
    NotACode(before, 1);
    NotACode(after, 0);
  }

  /** A text with a visible character that is neither code is rejected. */
  lemma NotACode(text: string, k: nat)
    requires k < |text| && !IsWhitespace(text[k])
    requires text != AdminCode && text != GoldCode
    ensures ClassifyCode(text) == Rejected
  {
    assert !IsBlank(text);
  }

  /** The label shown for a tier: only 'free' reads as a regular member. */
  function TierLabel(t: Tier): (caption: string)
    ensures caption == "عضو عادي" <==> t == Free
    ensures t != Free ==> caption == "عضو ذهبي 👑"
  {
    if t == Free then "عضو عادي" else "عضو ذهبي 👑"
  }

  class SubscriptionScreen {
    var code: string
    var loading: bool
    var user: UserProfile
    /** The route the page last navigated to, if any. */
    var route: Option<string>

    constructor (u: UserProfile)
      ensures code == "" && !loading && user == u && route.None?
    {
      code, loading, user, route := "", false, u, None;
    }

    method Type(text: string)
      modifies this
      ensures code == text && loading == old(loading) && user == old(user) && route == old(route)
    {
      code := text;
    }

    /**
     * A press of the claim button. The button is disabled while loading, so
     * then nothing happens. The admin code navigates to /maker; the gold code
     * starts loading, to be finished by `GoldGranted`; the user record is not
     * touched here in any case.
     */
    method Press() returns (c: Claim)
      modifies this
      ensures user == old(user) && code == old(code)
      ensures old(loading) ==> c == Ignored && loading && route == old(route)
      ensures !old(loading) ==> c == ClassifyCode(old(code))
      ensures !old(loading) && c == OpenMaker ==> route == Some("/maker") && !loading
      ensures !old(loading) && c == RedeemGold ==> loading && route == old(route)
      ensures !old(loading) && (c == Ignored || c == Rejected) ==> !loading && route == old(route)
    {
      if loading {
        return Ignored;
      }
      c := ClassifyCode(code);
      if c == OpenMaker {
        route := Some("/maker");
      } else if c == RedeemGold {
        loading := true;
      }
    }

    /** The delayed callback of a gold redemption: only the tier changes, loading ends and the page goes home. */
    method GoldGranted()
      requires loading
      modifies this
      ensures user == old(user).(subscriptionTier := Gold)
      ensures !loading && route == Some("/") && code == old(code)
      ensures TierLabel(user.subscriptionTier) == "عضو ذهبي 👑"
    {
      user := user.(subscriptionTier := Gold);
      loading := false;
      route := Some("/");
    }
  }
}
