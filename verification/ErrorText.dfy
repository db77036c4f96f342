/** The text of a failed audit (sanitizeError, LocalAuditStore.php): URLs redacted, plain characters, bounded. */
module ErrorText {
  import opened Prelude
  import opened Text

  const REDACTED_URL := "[redacted-url]"

  const DEFAULT_ERROR := "local_audit_failed"

  const MAX_ERROR_LENGTH := 160

  predicate IsAllowed(c: char) {
    || 'A' <= c <= 'Z' || 'a' <= c <= 'z' || '0' <= c <= '9' || IsSpace(c)
    || c == '_' || c == '.' || c == ':' || c == ',' || c == ';' || c == '-' || c == '[' || c == ']'
  }

  predicate IsScheme(s: string) {
    Lower(s) == "http://" || Lower(s) == "https://"
  }

  /** A scheme of this length and one more character that is no space. */
  predicate UrlAt(s: string, length: nat) {
    length < |s| && IsScheme(s[..length]) && !IsSpace(s[length])
  }

  predicate StartsUrl(s: string) {
    UrlAt(s, 7) || UrlAt(s, 8)
  }

  /** What is left from the first space on. */
  function AfterRun(s: string): (r: string)
    ensures |r| <= |s| && (s != "" && !IsSpace(s[0]) ==> |r| < |s|)
  {
    if s == "" || IsSpace(s[0]) then s else AfterRun(s[1..])
  }

  lemma SchemeHasNoSpace(s: string)
    requires IsScheme(s)
    ensures |s| >= 7 && forall i :: 0 <= i < |s| ==> !IsSpace(s[i])
  {
    var lower := Lower(s);
    assert forall i :: 0 <= i < |lower| ==> !IsSpace(lower[i]);
    forall i | 0 <= i < |s| ensures !IsSpace(s[i]) {
      assert lower[i] == LowerChar(s[i]);
    }
  }

  lemma UrlStartsPlain(s: string)
    requires StartsUrl(s)
    ensures s != "" && !IsSpace(s[0])
  {
    var length: nat := if UrlAt(s, 7) then 7 else 8;
    SchemeHasNoSpace(s[..length]);
    assert s[..length][0] == s[0];
  }

  function Redacted(s: string): string
    decreases |s|
  {
    if s == "" then ""
    else if StartsUrl(s) then
      UrlStartsPlain(s);
      REDACTED_URL + Redacted(AfterRun(s))
    else [s[0]] + Redacted(s[1..])
  }

  function Cut(s: string, most: nat): string {
    s[..Min(most, |s|)]
  }

  function SanitizedError(message: string): string {
    var clean := Trim(Filtered(Redacted(message), IsAllowed));
    Cut(if clean == "" then DEFAULT_ERROR else clean, MAX_ERROR_LENGTH)
  }

  lemma {:induction false} TrimLeftWithin(s: string)
    ensures forall c :: c in TrimLeft(s) ==> c in s
  {
    if s != "" && IsTrimmed(s[0]) {
      TrimLeftWithin(s[1..]);
    }
  }

  lemma TrimWithin(s: string)
    ensures forall c :: c in Trim(s) ==> c in s
  {
    TrimLeftWithin(s);
    TrimRightEnds(TrimLeft(s));
  }

  /** What is stored of any message is a short text of plain characters that does not start with a space. */
  lemma ErrorIsPlain(message: string)
    ensures var error := SanitizedError(message);
            1 <= |error| <= MAX_ERROR_LENGTH && !IsTrimmed(error[0]) && forall c :: c in error ==> IsAllowed(c)
  {
    var kept := Filtered(Redacted(message), IsAllowed);
    TrimWithin(kept);
    TrimTrims(kept);
    assert forall i :: 0 <= i < |DEFAULT_ERROR| ==> IsAllowed(DEFAULT_ERROR[i]);
  }

  // ---------- Messages without URLs ----------

  /** A letter, a digit, white space, or one of the marks _.:,;-[]. */
  predicate IsPlain(c: char) {
    'a' <= c <= 'z' || 'A' <= c <= 'Z' || '0' <= c <= '9'
    || c in [' ', '\t', '\n', '\r', '\U{0B}', '\U{0C}', '_', '.', ':', ',', ';', '-', '[', ']']
  }

  /** The text begins with "http://" or "https://", in any case, and a character that is no white space. */
  predicate BeginsUrl(s: string) {
    || (|s| > 7 && Lower(s[..7]) == "http://" && s[7] !in [' ', '\t', '\n', '\r', '\U{0B}', '\U{0C}'])
    || (|s| > 8 && Lower(s[..8]) == "https://" && s[8] !in [' ', '\t', '\n', '\r', '\U{0B}', '\U{0C}'])
  }

  predicate NoUrl(s: string) {
    forall i :: 0 <= i <= |s| ==> !BeginsUrl(s[i..])
  }

  lemma BeginsAsStarted(s: string)
    ensures BeginsUrl(s) <==> StartsUrl(s)
  {
    assert UrlAt(s, 7) ==> |Lower(s[..7])| == 7;
    assert UrlAt(s, 8) ==> |Lower(s[..8])| == 8;
  }

  lemma {:induction false} NothingRedacted(s: string)
    requires NoUrl(s)
    ensures Redacted(s) == s
  {
    if s != "" {
      assert s[0..] == s;
      BeginsAsStarted(s);
      forall i | 0 <= i <= |s[1..]| ensures !BeginsUrl(s[1..][i..]) {
        assert s[1..][i..] == s[i + 1..];
      }
      NothingRedacted(s[1..]);
    }
  }

  /** Of a message without URLs its plain characters are stored, trimmed, the first 160 of them; when none are left,
      a fixed text. */
  lemma PlainMessageStored(message: string)
    requires NoUrl(message) && forall c :: c in message ==> IsPlain(c)
    ensures IsBlank(message) ==> SanitizedError(message) == "local_audit_failed"
    ensures !IsBlank(message) ==>
              SanitizedError(message) == if |Trim(message)| <= 160 then Trim(message) else Trim(message)[..160]
  {
    NothingRedacted(message);
    forall i | 0 <= i < |message| ensures IsAllowed(message[i]) {
      assert message[i] in message;
    }
    FilteredKeepsAll(message, IsAllowed);
    TrimOfBlank(message);
  }

  /** Only plain characters are stored of any message. */
  lemma OnlyPlainStored(message: string)
    ensures |SanitizedError(message)| <= 160 && forall c :: c in SanitizedError(message) ==> IsPlain(c)
  {
    ErrorIsPlain(message);
  }

  predicate NoSpace(s: string) {
    forall i :: 0 <= i < |s| ==> !IsSpace(s[i])
  }

  lemma {:induction false} RunSkipped(s: string, t: string)
    requires NoSpace(s)
    ensures AfterRun(s + t) == AfterRun(t)
  {
    if s == "" {
      assert s + t == t;
    } else {
      RunSkipped(s[1..], t);
      assert (s + t)[0] == s[0] && (s + t)[1..] == s[1..] + t;
    }
  }

  lemma {:induction false} RunEndsWithin(s: string, t: string)
    requires !NoSpace(s)
    ensures AfterRun(s + t) == AfterRun(s) + t
  {
    if !IsSpace(s[0]) {
      assert (s + t)[0] == s[0] && (s + t)[1..] == s[1..] + t;
      assert !NoSpace(s[1..]) by {
        var i :| 0 <= i < |s| && IsSpace(s[i]);
        assert s[1..][i - 1] == s[i];
      }
      RunEndsWithin(s[1..], t);
    }
  }

  /** Texts that agree on eight characters and go on alike both start a URL or neither does. */
  lemma StartAlike(s: string, t: string)
    requires |s| > 8 && |t| > 8 && s[..8] == t[..8] && (IsSpace(s[8]) <==> IsSpace(t[8]))
    ensures StartsUrl(s) <==> StartsUrl(t)
  {
    assert s[..7] == s[..8][..7] && t[..7] == t[..8][..7];
    assert s[7] == s[..8][7] && t[7] == t[..8][7];
  }

  lemma StartAlikeBefore(before: string, scheme: string, first: string, second: string)
    requires before != "" && |scheme| >= 7 && first != "" && second != ""
    requires !IsSpace(first[0]) && !IsSpace(second[0])
    ensures StartsUrl(before + (scheme + first)) <==> StartsUrl(before + (scheme + second))
  {
    var s, t := before + (scheme + first), before + (scheme + second);
    var n := |before| + |scheme|;
    assert s[..n] == before + scheme == t[..n];
    assert s[..8] == s[..n][..8] && t[..8] == t[..n][..8];
    if n > 8 {
      assert s[8] == s[..n][8] && t[8] == t[..n][8];
    }
    StartAlike(s, t);
  }

  lemma UrlStarts(scheme: string, secret: string)
    requires IsScheme(scheme) && secret != "" && !IsSpace(secret[0])
    ensures StartsUrl(scheme + secret)
  {
    assert (scheme + secret)[..|scheme|] == scheme;
  }

  /** Whatever follows a scheme up to the next space has no influence on the redacted text. */
  lemma {:induction false} RedactedAlike(before: string, scheme: string, first: string, second: string, after: string)
    requires IsScheme(scheme) && first != "" && second != "" && NoSpace(first) && NoSpace(second)
    ensures Redacted(before + (scheme + (first + after))) == Redacted(before + (scheme + (second + after)))
    decreases |before|
  {
    SchemeHasNoSpace(scheme);
    var u, v := scheme + (first + after), scheme + (second + after);
    RunSkipped(scheme, first + after);
    RunSkipped(scheme, second + after);
    RunSkipped(first, after);
    RunSkipped(second, after);
    if before == "" {
      assert before + u == u && before + v == v;
      UrlStarts(scheme, first + after);
      UrlStarts(scheme, second + after);
    } else {
      StartAlikeBefore(before, scheme, first + after, second + after);
      if !StartsUrl(before + u) {
        assert (before + u)[1..] == before[1..] + u && (before + v)[1..] == before[1..] + v;
        RedactedAlike(before[1..], scheme, first, second, after);
      } else if NoSpace(before) {
        RunSkipped(before, u);
        RunSkipped(before, v);
      } else {
        UrlStartsPlain(before + u);
        RunEndsWithin(before, u);
        RunEndsWithin(before, v);
        RedactedAlike(AfterRun(before), scheme, first, second, after);
      }
    }
  }

  /** Whatever the message, nothing after the scheme of a URL in it has any influence on what is stored. */
  lemma UrlsAreRedacted(before: string, scheme: string, first: string, second: string, after: string)
    requires IsScheme(scheme) && first != "" && second != "" && NoSpace(first) && NoSpace(second)
    ensures SanitizedError(before + (scheme + (first + after))) == SanitizedError(before + (scheme + (second + after)))
  {
    RedactedAlike(before, scheme, first, second, after);
  }

  /** A URL up to the next space is replaced as a whole. */
  lemma UrlReplaced(scheme: string, secret: string, after: string)
    requires (Lower(scheme) == "http://" || Lower(scheme) == "https://") && secret != "" && NoSpace(secret)
    requires after == "" || IsSpace(after[0])
    ensures Redacted(scheme + (secret + after)) == "[redacted-url]" + Redacted(after)
  {
    SchemeHasNoSpace(scheme);
    UrlStarts(scheme, secret + after);
    RunSkipped(scheme, secret + after);
    RunSkipped(secret, after);
  }
}
