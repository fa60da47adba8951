// The CAPTCHA detector: a case-insensitive search for a fixed list of phrases.

module Captcha {
  import opened Text

  /** The phrases whose presence marks a page as a likely CAPTCHA challenge. */
  const CaptchaHints: seq<string> := [
    "are you a human",
    "verify you are a human",
    "enter the characters you see",
    "recaptcha",
    "hcaptcha",
    "cloudflare turnstile",
    "unusual traffic"
  ]

  /** Some hint in `hints` occurs in `low`, checked hint by hint. */
  function AnyHintIn(low: string, hints: seq<string>): (r: bool)
    ensures r <==> exists k :: 0 <= k < |hints| && Contains(low, hints[k])
  {
    if hints == [] then false
    else if Contains(low, hints[0]) then true
    else
      assert forall k :: 1 <= k < |hints| ==> hints[k] == hints[1..][k - 1];
      AnyHintIn(low, hints[1..])
  }

  /** Whether `maybe_detect_captcha(html)` raises `CaptchaDetected`. */
  function MaybeDetectCaptcha(html: string): (detected: bool)
    ensures html == "" ==> !detected
    ensures detected <==> exists k :: 0 <= k < |CaptchaHints| && Contains(Lower(html), CaptchaHints[k])
  {
    if html == "" then false else AnyHintIn(Lower(html), CaptchaHints)
  }

  /** A page reading `reCAPTCHA`, in mixed case, is flagged by the fourth phrase. */
  lemma RecaptchaPageDetected()
    ensures MaybeDetectCaptcha("reCAPTCHA")
  {
    assert Lower("reCAPTCHA") == CaptchaHints[3];
    assert OccursAt(CaptchaHints[3], Lower("reCAPTCHA"), 0);
  }

  /** Detection does not depend on letter case. */
  lemma DetectCaseInsensitive(html: string)
    ensures MaybeDetectCaptcha(Upper(html)) == MaybeDetectCaptcha(html)
  {
    LowerOfUpper(html);
  }

  /** A page that contains a detected page as a substring is detected too. */
  lemma DetectMonotone(html: string, outer: string)
    requires Contains(outer, html)
    requires MaybeDetectCaptcha(html)
    ensures MaybeDetectCaptcha(outer)
  {
    var k :| 0 <= k < |CaptchaHints| && Contains(Lower(html), CaptchaHints[k]);
    ContainsLower(outer, html);
    ContainsTransitive(Lower(outer), Lower(html), CaptchaHints[k]);
    assert outer != "" by {
      var i :| OccursAt(html, outer, i);
    }
  }
}
