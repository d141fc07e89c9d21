/**
  The PII masking functions and the avatar-initials helper. Each is a total function of
  the raw value (absent, empty or present) and, for the masks, the effective visibility
  flag; none can fail.
 */
module Pii {
  import opened Wrappers
  import opened JsText

  /** The placeholder rendered for an absent value, in both modes. */
  const Dash := "—"
  /** The fully generic token for an email whose domain is missing or empty. */
  const RedactedEmail := "***@***.***"
  /** The one token every hidden organization renders as. */
  const MaskedOrganization := "Org-****"
  /** The placeholder initials for an absent name. */
  const UnknownInitials := "??"

  /** `!v` for a `string | null | undefined`: absent or empty. */
  predicate Absent(v: Option<string>) {
    v.None? || v.value == ""
  }

  function Min(a: int, b: int): int { if a <= b then a else b }

  function Stars(k: nat): string { Repeat('*', k) }

  /** `${local[0]}`: the first character, or the text "undefined" when local is empty. */
  function FirstCharText(local: string): string {
    if local == [] then "undefined" else [local[0]]
  }

  // ---------------------------------------------------------------------------
  // maskEmail
  // ---------------------------------------------------------------------------

  /** What a present email hides to, read off character positions: the local part is
      everything before the first '@', the domain everything between it and the next '@'
      (or the end), its first label everything before the domain's first '.'. */
  function HiddenEmail(e: string): string {
    var at := FirstIndex(e, '@');
    if at == |e| then RedactedEmail
    else
      var afterAt := e[at + 1..];
      var domain := afterAt[..FirstIndex(afterAt, '@')];
      if domain == "" then RedactedEmail
      else
        var dot := FirstIndex(domain, '.');
        FirstCharText(e[..at]) + "***@" + Stars(dot) + "."
          + (if dot < |domain| then domain[dot + 1..] else "")
  }

  /** The source's reading through `split`: local part and domain are the first two
      '@'-pieces, the first label the first '.'-piece of the domain, and the remaining
      labels are joined back with '.'. It agrees with the positional reading. */
  lemma HiddenEmailBySplit(e: string)
    ensures var parts := Split(e, '@');
      HiddenEmail(e) ==
        if |parts| < 2 || parts[1] == "" then RedactedEmail
        else
          var labels := Split(parts[1], '.');
          FirstCharText(parts[0]) + "***@" + Stars(|labels[0]|) + "." + Join(labels[1..], '.')
  {
    var at := FirstIndex(e, '@');
    var parts := Split(e, '@');
    SplitAtFirst(e, '@');
    if at < |e| {
      var afterAt := e[at + 1..];
      SplitAtFirst(afterAt, '@');
      assert parts[1] == afterAt[..FirstIndex(afterAt, '@')] by {
        assert parts[1] == parts[1..][0];
      }
      var domain := parts[1];
      if domain != "" {
        var dot := FirstIndex(domain, '.');
        var labels := Split(domain, '.');
        SplitAtFirst(domain, '.');
        if dot < |domain| {
          JoinSplit(domain[dot + 1..], '.');
        } else {
          assert labels[1..] == [];
        }
      }
    }
  }

  /** `maskEmail(email, visible)`. */
  function MaskEmail(email: Option<string>, visible: bool): (r: string)
    ensures Absent(email) ==> r == Dash
    ensures !Absent(email) && visible ==> r == email.value
    ensures !Absent(email) && !visible ==> r == HiddenEmail(email.value) && r != Dash
    ensures r != ""
  {
    if Absent(email) then Dash
    else if visible then email.value
    else
      var parts := Split(email.value, '@');
      HiddenEmailBySplit(email.value);
      if |parts| < 2 || parts[1] == "" then RedactedEmail
      else
        var labels := Split(parts[1], '.');
        var r := FirstCharText(parts[0]) + "***@" + Stars(|labels[0]|) + "." + Join(labels[1..], '.');
        assert r[|FirstCharText(parts[0])|] == '*';
        r
  }

  // ---------------------------------------------------------------------------
  // maskPatientId and maskOrganization
  // ---------------------------------------------------------------------------

  /** `maskPatientId(id, visible)`: hidden, at most the first four characters survive,
      followed by four stars. */
  function MaskPatientId(id: Option<string>, visible: bool): (r: string)
    ensures Absent(id) ==> r == Dash
    ensures !Absent(id) && visible ==> r == id.value
    ensures !Absent(id) && !visible ==>
              && |r| == Min(4, |id.value|) + 4
              && r[..|r| - 4] == id.value[..|r| - 4]
              && r[|r| - 4..] == "****"
              && r != Dash
    ensures r != ""
  {
    if Absent(id) then Dash
    else if visible then id.value
    else id.value[..Min(4, |id.value|)] + "****"
  }

  /** `maskOrganization(org, visible)`. */
  function MaskOrganization(org: Option<string>, visible: bool): (r: string)
    ensures Absent(org) ==> r == Dash
    ensures !Absent(org) && visible ==> r == org.value
    ensures !Absent(org) && !visible ==> r == MaskedOrganization
    ensures r != ""
  {
    if Absent(org) then Dash
    else if visible then org.value
    else MaskedOrganization
  }

  /** Hidden, a patient id reveals its first four characters and nothing else: two ids
      that agree there mask alike. */
  lemma HiddenPatientIdRevealsOnlyPrefix(a: string, b: string)
    requires a != "" && b != ""
    requires a[..Min(4, |a|)] == b[..Min(4, |b|)]
    ensures MaskPatientId(Some(a), false) == MaskPatientId(Some(b), false)
  {
  }

  /** Hidden, an organization reveals nothing: every present name masks alike. */
  lemma HiddenOrganizationRevealsNothing(a: string, b: string)
    requires a != "" && b != ""
    ensures MaskOrganization(Some(a), false) == MaskOrganization(Some(b), false)
  {
  }

  /** Two worked examples: a patient id and an organization. */
  lemma MaskIdExamples()
    ensures MaskPatientId(Some("PAT-12345"), false) == "PAT-****"
    ensures MaskOrganization(Some("Acme University"), true) == "Acme University"
  {
    assert "PAT-12345"[..4] == "PAT-";
  }

  /** The first c in a + [c] + b, when a holds no c, is at |a|. */
  lemma FirstIndexAfter(a: string, c: char, b: string)
    requires c !in a
    ensures FirstIndex(a + [c] + b, c) == |a|
  {
    var s := a + [c] + b;
    var i := FirstIndex(s, c);
    assert s[|a|] == c;
  }

  /** An email local@label.rest, optionally followed by a second '@' and anything: the
      first character of the local part, "***@", one star per character of the first
      domain label, then "." and the remaining labels; what follows a second '@' is
      dropped. So "j.doe@research.org" hides to "j***@********.org". */
  lemma HiddenEmailShape(local: string, host: string, others: string, tail: string)
    requires '@' !in local && '@' !in host && '@' !in others && '.' !in host
    requires tail == [] || tail[0] == '@'
    ensures HiddenEmail(local + "@" + host + "." + others + tail)
            == FirstCharText(local) + "***@" + Stars(|host|) + "." + others
  {
    var domain := host + "." + others;
    var afterAt := domain + tail;
    var e := local + "@" + afterAt;
    assert local + "@" + host + "." + others + tail == e;
    FirstIndexAfter(local, '@', afterAt);
    assert e[|local| + 1..] == afterAt;
    assert e[..|local|] == local;
    assert '@' !in domain;
    if tail == [] {
      assert afterAt == domain;
      assert FirstIndex(afterAt, '@') == |afterAt|;
    } else {
      assert afterAt == domain + ['@'] + tail[1..];
      FirstIndexAfter(domain, '@', tail[1..]);
    }
    assert afterAt[..FirstIndex(afterAt, '@')] == domain;
    FirstIndexAfter(host, '.', others);
    assert domain[|host| + 1..] == others;
  }

  /** An email with no '@', or with nothing between the first '@' and the next, hides to
      the generic token. */
  lemma HiddenEmailGeneric(e: string)
    requires '@' !in e || (exists k :: 0 <= k < |e| - 1 && e[k] == '@' && e[k + 1] == '@' && '@' !in e[..k])
      || (|e| > 0 && e[|e| - 1] == '@' && '@' !in e[..|e| - 1])
    ensures HiddenEmail(e) == RedactedEmail
  {
    if '@' in e {
      var at := FirstIndex(e, '@');
      if exists k :: 0 <= k < |e| - 1 && e[k] == '@' && e[k + 1] == '@' && '@' !in e[..k] {
        var k :| 0 <= k < |e| - 1 && e[k] == '@' && e[k + 1] == '@' && '@' !in e[..k];
        assert at == k;
        assert e[at + 1..][0] == '@';
      } else {
        assert at == |e| - 1;
        assert e[at + 1..] == [];
      }
    }
  }

  // ---------------------------------------------------------------------------
  // getInitials
  // ---------------------------------------------------------------------------

  /** `tokens.map((n) => n[0]).join('')`: `n[0]` of an empty token is undefined, which
      `join` renders as nothing. */
  function LeadingChars(tokens: seq<string>): string {
    if tokens == [] then ""
    else (if tokens[0] == "" then "" else [tokens[0][0]]) + LeadingChars(tokens[1..])
  }

  /** The characters of s that start a word, scanning left to right: a non-space character
      at the start (when afterSpace) or right after a space. */
  function WordStarts(s: string, afterSpace: bool): string {
    if s == [] then ""
    else (if afterSpace && s[0] != ' ' then [s[0]] else "") + WordStarts(s[1..], s[0] == ' ')
  }

  /** `s.slice(0, n)`. */
  function Take(s: string, n: nat): string {
    s[..Min(n, |s|)]
  }

  /** The first characters of the pieces of `split(' ')` are the word starts of s; the
      pieces after the first contribute the word starts past position 0. */
  lemma {:induction false} LeadingCharsOfSplit(s: string, first: bool)
    ensures LeadingChars(if first then Split(s, ' ') else Split(s, ' ')[1..]) == WordStarts(s, first)
    decreases |s|
  {
    if s == [] {
      assert Split(s, ' ')[1..] == [];
    } else {
      var R := Split(s[1..], ' ');
      if s[0] == ' ' {
        assert Split(s, ' ') == [""] + R;
        assert ([""] + R)[1..] == R;
        LeadingCharsOfSplit(s[1..], true);
      } else {
        var parts := [[s[0]] + R[0]] + R[1..];
        assert Split(s, ' ') == parts;
        assert parts[1..] == R[1..];
        LeadingCharsOfSplit(s[1..], false);
      }
    }
  }

  /** `getInitials(name)`: "??" for an absent name, otherwise the upper-cased word starts
      of the name, cut to two characters. */
  function GetInitials(name: Option<string>): (r: string)
    ensures Absent(name) ==> r == UnknownInitials
    ensures !Absent(name) ==> r == Take(Upper(WordStarts(name.value, true)), 2)
    ensures |r| <= 2
  {
    if Absent(name) then UnknownInitials
    else
      LeadingCharsOfSplit(name.value, true);
      Take(Upper(LeadingChars(Split(name.value, ' '))), 2)
  }

  /** A word (no space, not empty) at the head of the text contributes its first
      character, if a word may start there, and nothing else. */
  lemma {:induction false} WordStartsOfWord(w: string, t: string, afterSpace: bool)
    requires w != [] && ' ' !in w
    ensures WordStarts(w + t, afterSpace) == (if afterSpace then [w[0]] else []) + WordStarts(t, false)
    decreases |w|
  {
    var s := w + t;
    var head: string := if afterSpace then [w[0]] else [];
    assert s[0] == w[0] && w[0] != ' ';
    assert s[1..] == w[1..] + t;
    assert WordStarts(s, afterSpace) == head + WordStarts(w[1..] + t, false);
    if |w| > 1 {
      WordStartsOfWord(w[1..], t, false);
      assert WordStarts(w[1..] + t, false) == [] + WordStarts(t, false);
    } else {
      assert w[1..] + t == t;
    }
  }

  /** A name made of two words followed by anything starting with a space gets the two
      words' first letters, upper-cased: "Dr. Jane Smith" gives "DJ". */
  lemma InitialsOfTwoWords(w1: string, w2: string, t: string)
    requires w1 != [] && w2 != [] && ' ' !in w1 && ' ' !in w2
    requires t == [] || t[0] == ' '
    ensures GetInitials(Some(w1 + " " + w2 + t)) == [UpperChar(w1[0]), UpperChar(w2[0])]
  {
    var name := w1 + " " + w2 + t;
    assert name == w1 + (" " + (w2 + t));
    WordStartsOfWord(w1, " " + (w2 + t), true);
    assert (" " + (w2 + t))[1..] == w2 + t;
    WordStartsOfWord(w2, t, true);
    var starts := WordStarts(name, true);
    assert starts == [w1[0], w2[0]] + WordStarts(t, false);
    assert Upper(starts)[..2] == [UpperChar(w1[0]), UpperChar(w2[0])];
  }
}
