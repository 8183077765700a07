/**
 * How the messaging hook tells a WhatsApp address from an SMS one, strips the
 * channel prefix Twilio puts on addresses, and puts the `whatsapp:` prefix back
 * on outbound addresses.
 */
module Channel {
  import opened Wrappers
  import Js

  const WhatsAppPrefix: string := "whatsapp:"
  const SmsPrefix: string := "sms:"

  datatype Kind = Sms | WhatsApp

  /** The channel names the hook logs and compares: "sms" and "whatsapp". */
  function Name(k: Kind): (n: string)
    ensures n == "whatsapp" <==> k == WhatsApp
  {
    match k
    case Sms => "sms"
    case WhatsApp => "whatsapp"
  }

  /** `from && from.startsWith('whatsapp:') ? 'whatsapp' : 'sms'`, an absent or empty sender being falsy. */
  function Classify(from: Option<string>): Kind {
    if from.Some? && from.value != "" && Js.StartsWith(from.value, WhatsAppPrefix) then WhatsApp else Sms
  }

  /** Whether an address carries one of the two prefixes the pattern `^(whatsapp:|sms:)` matches. */
  predicate HasPrefix(a: string) {
    Js.StartsWith(a, WhatsAppPrefix) || Js.StartsWith(a, SmsPrefix)
  }

  /** `a.replace(/^(whatsapp:|sms:)/, '')`: the leftmost alternative that matches at the start is removed, once. */
  function Strip(a: string): (r: string)
    ensures HasPrefix(a) ==> |r| < |a|
    ensures !HasPrefix(a) ==> r == a
  {
    if Js.StartsWith(a, WhatsAppPrefix) then a[|WhatsAppPrefix|..]
    else if Js.StartsWith(a, SmsPrefix) then a[|SmsPrefix|..]
    else a
  }

  /** `a ? a.replace(/^(whatsapp:|sms:)/, '') : a` on an optional address. */
  function Clean(a: Option<string>): (r: Option<string>)
    ensures r.Some? <==> a.Some?
  {
    if a.Some? && a.value != "" then Some(Strip(a.value)) else a
  }

  /** `channel === 'whatsapp' ? `whatsapp:${clean}` : clean`. */
  function Format(clean: string, channel: string): (r: string)
    ensures channel == "whatsapp" ==> Js.StartsWith(r, WhatsAppPrefix) && r[|WhatsAppPrefix|..] == clean
    ensures channel != "whatsapp" ==> r == clean
  {
    if channel == "whatsapp" then WhatsAppPrefix + clean else clean
  }

  /* ---------------------------------------------------------------------- */
  /* Properties                                                              */
  /* ---------------------------------------------------------------------- */

  /** An address is a WhatsApp one exactly when it is present and starts with "whatsapp:" (case matters). */
  lemma ClassifyIff(from: Option<string>)
    ensures Classify(from) == WhatsApp <==> from.Some? && Js.StartsWith(from.value, WhatsAppPrefix)
  {
    if from.Some? && Js.StartsWith(from.value, WhatsAppPrefix) {
      assert |from.value| >= 9;
    }
  }

  /** Cleaning a present address is stripping it; the empty address is left alone, which is the same. */
  lemma CleanIsStrip(a: Option<string>)
    ensures a.Some? ==> Clean(a) == Some(Strip(a.value))
    ensures a.None? ==> Clean(a) == None
  {
    if a.Some? && a.value == "" {
      assert !HasPrefix(a.value);
    }
  }

  /** Stripping removes exactly one of the two prefixes, or nothing when neither is there. */
  lemma StripRemovesOnePrefix(a: string)
    ensures HasPrefix(a) ==> a == WhatsAppPrefix + Strip(a) || a == SmsPrefix + Strip(a)
    ensures Strip(a) == a <==> !HasPrefix(a)
  {
    if Js.StartsWith(a, WhatsAppPrefix) {
      assert a == a[..9] + a[9..];
    } else if Js.StartsWith(a, SmsPrefix) {
      assert a == a[..4] + a[4..];
    }
  }

  /** A doubly prefixed address keeps its second prefix: stripping is not idempotent. */
  lemma StripNotIdempotent()
    ensures Strip("sms:whatsapp:+1") == "whatsapp:+1"
    ensures Strip(Strip("sms:whatsapp:+1")) == "+1"
  {
    var a := "sms:whatsapp:+1";
    assert a[..4] == SmsPrefix;
    assert !Js.StartsWith(a, WhatsAppPrefix) by {
      assert a[0] != WhatsAppPrefix[0];
    }
    var b := a[4..];
    assert b == "whatsapp:+1";
    assert b[..9] == WhatsAppPrefix;
  }

  /** Stripping twice is stripping once exactly when the stripped address carries no further prefix. */
  lemma StripIdempotentIff(a: string)
    ensures Strip(Strip(a)) == Strip(a) <==> !HasPrefix(Strip(a))
  {
  }

  /**
   * Putting the prefix back undoes the stripping: a WhatsApp address comes back
   * as it was, and so does an unprefixed one formatted for any other channel.
   */
  lemma FormatStripRoundTrip(x: string, channel: string)
    ensures Js.StartsWith(x, WhatsAppPrefix) ==> Format(Strip(x), "whatsapp") == x
    ensures !HasPrefix(x) && channel != "whatsapp" ==> Format(Strip(x), channel) == x
  {
    if Js.StartsWith(x, WhatsAppPrefix) {
      assert x == x[..9] + x[9..];
    }
  }

  /** Stripping undoes the formatting for WhatsApp, and formatted addresses classify by their channel. */
  lemma StripFormatRoundTrip(y: string, channel: string)
    ensures Strip(Format(y, "whatsapp")) == y
    ensures Classify(Some(Format(y, "whatsapp"))) == WhatsApp
    ensures channel != "whatsapp" ==> Classify(Some(Format(y, channel))) == Classify(Some(y))
  {
    var r := Format(y, "whatsapp");
    assert r[..9] == WhatsAppPrefix;
  }
}
