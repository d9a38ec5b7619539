/** The business-registration-number check of host sign-up: normalise the
    number, insist on exactly ten digits, then ask the registry and classify
    its answer. */
module BiznoVerification {
  import opened Common
  import opened Decimal
  import opened JavaText
  import opened BiznoResponse

  /** How the registry call ended: a response body (absent when the client
      returned null), a business exception raised inside the call, or any
      other failure with its message. */
  datatype ApiCall =
    | Responded(body: Option<Response>)
    | RaisedBusiness(status: Status)
    | Failed(message: Option<string>)

  /** The message a refusal carries. */
  datatype Reason =
    | MalformedNumber                                        // not ten digits
    | NoResponse                                             // null body
    | NoItems                                                // no non-null item
    | ItemStatus(statusCode: Option<string>, status: Option<string>)  // the first item's status
    | ApiMessage(message: Option<string>)                    // the failure's own message, or a default
    | Propagated                                             // a business exception passed through

  datatype Verdict = Valid | Invalid(status: Status, reason: Reason)

  /** `replaceAll("-", "")` then `trim()`. */
  function Normalize(number: string): (r: string)
    ensures '-' !in r
  {
    var kept := RemoveAll(number, '-');
    TrimLeadingSuffix(kept);
    TrimTrailingPrefix(TrimLeading(kept));
    Trim(kept)
  }

  /** `validateBizNoFormat`: the pattern `\d{10}`, matched as a whole, where
      `\d` means an ASCII digit. */
  predicate ValidFormat(s: string) {
    |s| == 10 && AllDigits(s)
  }

  /** `verify`. */
  function Verify(number: string, api: string -> ApiCall): (v: Verdict)
    ensures v == Valid <==>
              && ValidFormat(Normalize(number))
              && api(Normalize(number)).Responded?
              && api(Normalize(number)).body.Some?
              && HasValidBusiness(api(Normalize(number)).body.value)
    ensures !ValidFormat(Normalize(number)) ==> v == Invalid(AuthBusinessNumberInvalid, MalformedNumber)
    ensures ValidFormat(Normalize(number)) ==>
              var call := api(Normalize(number));
              && (call.RaisedBusiness? ==> v == Invalid(call.status, Propagated))
              && (call.Failed? ==> v == Invalid(AuthBiznoApiFailed, ApiMessage(call.message)))
              && (call == Responded(None) ==> v == Invalid(AuthBiznoApiFailed, NoResponse))
              && (call.Responded? && call.body.Some? && !HasValidBusiness(call.body.value) ==>
                    && v.Invalid? && v.status == AuthBusinessNumberInvalid
                    && (v.reason == NoItems <==> GetValidItemList(call.body.value) == []))
  {
    var normalized := Normalize(number);
    if !ValidFormat(normalized) then Invalid(AuthBusinessNumberInvalid, MalformedNumber)
    else
      match api(normalized)
      case RaisedBusiness(status) => Invalid(status, Propagated)
      case Failed(message) => Invalid(AuthBiznoApiFailed, ApiMessage(message))
      case Responded(body) =>
        if body.None? then Invalid(AuthBiznoApiFailed, NoResponse)
        else if HasValidBusiness(body.value) then Valid
        else
          var items := GetValidItemList(body.value);
          Invalid(AuthBusinessNumberInvalid,
                  if items == [] then NoItems else ItemStatus(items[0].statusCode, items[0].status))
  }

  /** The registry is consulted only with the normalised number: two
      registries that agree on it give the same verdict. */
  lemma OnlyNormalizedNumberSent(number: string, api1: string -> ApiCall, api2: string -> ApiCall)
    requires api1(Normalize(number)) == api2(Normalize(number))
    ensures Verify(number, api1) == Verify(number, api2)
  {
  }

  /** A malformed number is refused before the registry is consulted: the
      registry's answer makes no difference. */
  lemma FormatCheckedFirst(number: string, api1: string -> ApiCall, api2: string -> ApiCall)
    requires !ValidFormat(Normalize(number))
    ensures Verify(number, api1) == Verify(number, api2)
  {
  }

  /** A refusal for an inactive business names the first non-null item's
      status, or says there were no items. */
  lemma InactiveReason(number: string, api: string -> ApiCall, k: nat)
    requires ValidFormat(Normalize(number))
    requires api(Normalize(number)).Responded? && api(Normalize(number)).body.Some?
    requires var b := api(Normalize(number)).body.value;
             && !HasValidBusiness(b) && b.itemList.Some?
             && k < |b.itemList.value| && b.itemList.value[k].Some?
             && forall j | 0 <= j < k :: b.itemList.value[j].None?
    ensures var item := api(Normalize(number)).body.value.itemList.value[k].value;
            Verify(number, api) == Invalid(AuthBusinessNumberInvalid, ItemStatus(item.statusCode, item.status))
  {
    FirstValidItem(api(Normalize(number)).body.value.itemList.value, k);
  }

  /** A response whose list is absent, or holds only null items, is refused
      as an inactive business with the no-items reason. */
  lemma NoItemsReason(number: string, api: string -> ApiCall)
    requires ValidFormat(Normalize(number))
    requires api(Normalize(number)).Responded? && api(Normalize(number)).body.Some?
    requires var b := api(Normalize(number)).body.value;
             b.itemList.Some? ==> forall j | 0 <= j < |b.itemList.value| :: b.itemList.value[j].None?
    ensures Verify(number, api) == Invalid(AuthBusinessNumberInvalid, NoItems)
  {
    var b := api(Normalize(number)).body.value;
    if b.itemList.Some? {
      NonNullOfNulls(b.itemList.value);
    }
  }

  /** A string without padding at either end is its own trim. */
  lemma TrimUnpadded(s: string)
    requires s != [] && !IsTrimmable(s[0]) && !IsTrimmable(s[|s| - 1])
    ensures Trim(s) == s
  {
  }

  /** Dropping one separator in front of a piece without separators. */
  lemma DropSeparator(p: string, q: string)
    requires '-' !in q
    ensures RemoveAll(p + "-" + q, '-') == RemoveAll(p, '-') + q
  {
    var dash: string := "-";
    RemoveAllConcat(p, dash, '-');
    RemoveAllConcat(p + dash, q, '-');
    RemoveAllAbsent(q, '-');
    assert RemoveAll(dash, '-') == [];
    assert RemoveAll(p, '-') + [] == RemoveAll(p, '-');
  }

  /** Dropping the two separators of `a-b-c`. */
  lemma RemoveSeparators(a: string, b: string, c: string)
    requires '-' !in a && '-' !in b && '-' !in c
    ensures RemoveAll(a + "-" + b + "-" + c, '-') == a + b + c
  {
    DropSeparator(a + "-" + b, c);
    DropSeparator(a, b);
    RemoveAllAbsent(a, '-');
  }

  /** The usual written form `ddd-dd-ddddd` normalises to its ten digits. */
  lemma DashedFormNormalizes(d: string)
    requires ValidFormat(d)
    ensures Normalize(d[..3] + "-" + d[3..5] + "-" + d[5..]) == d
  {
    assert forall i | 0 <= i < |d| :: d[i] != '-';
    RemoveSeparators(d[..3], d[3..5], d[5..]);
    assert d[..3] + d[3..5] + d[5..] == d;
    TrimUnpadded(d);
  }
}
