/** The page the checkout callback redirects to (app/purchase/result/page.tsx,
    `PurchaseResultPage`): the `status` query parameter chooses a title, a
    tone and a description; `mtid` is echoed. */
module ResultPage {
  import opened Tables

  datatype Tone = Neutral | Green | Red

  datatype Page = Page(title: string, tone: Tone, description: string, transactionLine: string)

  const VerifyingText := "We are verifying your payment and allocating your co‑authorship positions. You will receive an email confirmation shortly."
  const SuccessText := "Your co‑authorship positions have been allocated. You will receive a confirmation email shortly. You can review or update your profile anytime."
  const NoCapture := "No amount was captured"
  const FailedLead := "We could not process your payment. "
  const FailedText := FailedLead + NoCapture + ". You can return to the book page to try again, or contact support if you were charged."
  const ErrorText := "Something went wrong while verifying your payment. Please try again or contact support."

  /** `searchParams?.status || "error"` */
  function EffectiveStatus(status: Option<string>): string {
    if status.Some? && status.value != "" then status.value else "error"
  }

  /** `searchParams?.mtid || ""` */
  function EffectiveMtid(mtid: Option<string>): string {
    if mtid.Some? then mtid.value else ""
  }

  /** The page for the two query parameters. */
  function ResultPageFor(status: Option<string>, mtid: Option<string>): Page {
    var s := EffectiveStatus(status);
    var m := EffectiveMtid(mtid);
    var line := "Transaction ID: " + (if m == "" then "—" else m);
    if s == "success" then Page("Payment Successful", Green, SuccessText, line)
    else if s == "failed" then Page("Payment Failed", Red, FailedText, line)
    else if s == "error" then Page("Payment Error", Red, ErrorText, line)
    else Page("Payment Status", Neutral, VerifyingText, line)
  }

  /** `t` occurs in `s`. */
  ghost predicate Contains(s: string, t: string) {
    exists i :: OccursAt(s, t, i)
  }

  predicate OccursAt(s: string, t: string, i: nat) {
    i + |t| <= |s| && s[i..i + |t|] == t
  }

  // ---------------------------------------------------------------------
  // Properties

  /** A missing or empty status shows the error page. */
  lemma MissingStatusIsError(mtid: Option<string>)
    ensures ResultPageFor(None, mtid) == ResultPageFor(Some("error"), mtid)
    ensures ResultPageFor(Some(""), mtid) == ResultPageFor(Some("error"), mtid)
    ensures ResultPageFor(None, mtid).title == "Payment Error" && ResultPageFor(None, mtid).tone == Red
  {
  }

  /** The three known statuses: success is green, failed and error are red,
      and only the failed page says that no amount was captured. */
  lemma KnownStatuses(mtid: Option<string>)
    ensures ResultPageFor(Some("success"), mtid).title == "Payment Successful"
    ensures ResultPageFor(Some("success"), mtid).tone == Green
    ensures ResultPageFor(Some("failed"), mtid).title == "Payment Failed"
    ensures ResultPageFor(Some("failed"), mtid).tone == Red
    ensures Contains(ResultPageFor(Some("failed"), mtid).description, "No amount was captured")
    ensures ResultPageFor(Some("error"), mtid).title == "Payment Error"
    ensures ResultPageFor(Some("error"), mtid).tone == Red
  {
    var rest := ". You can return to the book page to try again, or contact support if you were charged.";
    assert FailedText == FailedLead + NoCapture + rest;
    assert (FailedLead + NoCapture + rest)[|FailedLead|..|FailedLead| + |NoCapture|] == NoCapture;
    assert OccursAt(FailedText, NoCapture, |FailedLead|);
  }

  /** Any other non-empty status keeps the neutral "Payment Status" page
      with the verifying text, and that page is shown for nothing else. */
  lemma OtherStatusNeutral(status: string, mtid: Option<string>)
    requires status != ""
    ensures var p := ResultPageFor(Some(status), mtid);
      (status != "success" && status != "failed" && status != "error")
      <==> (p.title == "Payment Status" && p.tone == Neutral && p.description == VerifyingText)
  {
  }

  /** The transaction line shows the id, or a dash when it is missing or
      empty; it does not depend on the status. */
  lemma TransactionLine(status: Option<string>, mtid: Option<string>, other: Option<string>)
    ensures var line := ResultPageFor(status, mtid).transactionLine;
      && line[..16] == "Transaction ID: "
      && line[16..] == (if mtid.Some? && mtid.value != "" then mtid.value else "—")
      && line == ResultPageFor(other, mtid).transactionLine
  {
  }
}
