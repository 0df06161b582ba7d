/** The newsletter sign-up form: the unanchored `/\S+@\S+\.\S+/` check on
    submit, and the idle / loading / success / error machine that the submit
    handler and its two timers drive. */
module NewsletterForm {
  import opened Options
  import opened JsText

  // ---------------------------------------------------------------------
  // The email pattern
  // ---------------------------------------------------------------------

  /** An `@` at position i with a non-space character before it. */
  ghost predicate AtSign(s: string, i: int) {
    0 < i < |s| && s[i] == '@' && !IsSpace(s[i - 1])
  }

  /** After the `@` at i, s[i+1..e] is a non-empty run of non-space
      characters. */
  ghost predicate DomainRun(s: string, i: int, e: int) {
    AtSign(s, i) && i + 1 < e <= |s| && forall m :: i < m < e ==> !IsSpace(s[m])
  }

  /** Some run after an `@` ends at e. */
  ghost predicate RunEndsAt(s: string, e: int) {
    exists i :: DomainRun(s, i, e)
  }

  /** A match of the pattern: the run after the `@` at i ends in a `.` at j
      that a non-space character follows. Any match can be shrunk to one
      non-space character on each side, which is all this asks for. */
  ghost predicate MatchAt(s: string, i: int, j: int) {
    DomainRun(s, i, j) && j + 1 < |s| && s[j] == '.' && !IsSpace(s[j + 1])
  }

  /** `/\S+@\S+\.\S+/.test(s)`: some substring matches. */
  ghost predicate EmailPattern(s: string) {
    exists i, j :: MatchAt(s, i, j)
  }

  /** The state of the scan after the prefix s[..k]: which parts of the
      pattern can end exactly there, and whether a whole match already has. */
  datatype Scan = Scan(local: bool, at: bool, domain: bool, dot: bool, matched: bool)

  /** What each flag of a scan of s[..k] means. */
  ghost predicate ScanInvariant(s: string, k: int, st: Scan) {
    0 <= k <= |s| &&
    (st.local <==> 0 < k && !IsSpace(s[k - 1])) &&
    (st.at <==> AtSign(s, k - 1)) &&
    (st.domain <==> RunEndsAt(s, k)) &&
    (st.dot <==> 0 < k && s[k - 1] == '.' && RunEndsAt(s, k - 1)) &&
    (st.matched <==> exists i, j :: MatchAt(s, i, j) && j + 1 < k)
  }

  /** One character of the scan. */
  function Step(st: Scan, c: char): Scan {
    var ns := !IsSpace(c);
    Scan(ns, st.local && c == '@', (st.at || st.domain) && ns, st.domain && c == '.',
         st.matched || (st.dot && ns))
  }

  /** The scan over one more character keeps the meaning of its flags. */
  lemma StepKeepsInvariant(s: string, k: int, st: Scan)
    requires ScanInvariant(s, k, st) && k < |s|
    ensures ScanInvariant(s, k + 1, Step(st, s[k]))
  {
    var next := Step(st, s[k]);
    DomainStep(s, k);
    MatchStep(s, k);
  }

  /** A run after an `@` reaches k+1 exactly when it reaches k, or the `@`
      is at k-1, and s[k] is not a space. */
  lemma DomainStep(s: string, k: int)
    requires 0 <= k < |s|
    ensures RunEndsAt(s, k + 1) <==> (AtSign(s, k - 1) || RunEndsAt(s, k)) && !IsSpace(s[k])
  {
    if RunEndsAt(s, k + 1) {
      var i :| DomainRun(s, i, k + 1);
      if i + 1 < k {
        assert DomainRun(s, i, k);
      }
    }
    if !IsSpace(s[k]) {
      if AtSign(s, k - 1) {
        assert DomainRun(s, k - 1, k + 1);
      }
      if RunEndsAt(s, k) {
        var i :| DomainRun(s, i, k);
        assert DomainRun(s, i, k + 1);
      }
    }
  }

  /** A match ends before k+1 exactly when one ends before k, or a `.` after
      a run sits at k-1 and s[k] is not a space. */
  lemma MatchStep(s: string, k: int)
    requires 0 <= k < |s|
    ensures (exists i, j :: MatchAt(s, i, j) && j + 1 < k + 1) <==>
      (exists i, j :: MatchAt(s, i, j) && j + 1 < k) ||
      (0 < k && s[k - 1] == '.' && RunEndsAt(s, k - 1) && !IsSpace(s[k]))
  {
    if exists i, j :: MatchAt(s, i, j) && j + 1 < k + 1 {
      var i, j :| MatchAt(s, i, j) && j + 1 < k + 1;
      if j + 1 == k {
        assert DomainRun(s, i, k - 1);
      }
    }
    if 0 < k && s[k - 1] == '.' && RunEndsAt(s, k - 1) && !IsSpace(s[k]) {
      var i :| DomainRun(s, i, k - 1);
      assert MatchAt(s, i, k - 1);
    }
  }

  /** The pattern test, one pass over the characters. */
  method TestEmailPattern(s: string) returns (ok: bool)
    ensures ok <==> EmailPattern(s)
  {
    var st := Scan(false, false, false, false, false);
    var k := 0;
    while k < |s|
      invariant ScanInvariant(s, k, st)
    {
      StepKeepsInvariant(s, k, st);
      st := Step(st, s[k]);
      k := k + 1;
    }
    ok := st.matched;
  }

  /** The pattern needs at least five characters: the empty address the
      handler checks first would fail it anyway. */
  lemma PatternNeedsFiveCharacters(s: string)
    requires EmailPattern(s)
    ensures |s| >= 5
  {
    var i, j :| MatchAt(s, i, j);
  }

  /** The test is unanchored: spaces or anything else around a match keep
      it a match. */
  lemma PatternUnanchored(s: string, before: string, after: string)
    requires EmailPattern(s)
    ensures EmailPattern(before + s + after)
  {
    var i, j :| MatchAt(s, i, j);
    var t := before + s + after;
    var o := |before|;
    assert forall m :: 0 <= m < |s| ==> t[o + m] == s[m];
    assert MatchAt(t, o + i, o + j);
  }

  /** A concrete address that passes, with surrounding spaces, and two that
      fail: one without a dot after the `@`, one with a space inside it. */
  lemma PatternExamples()
    ensures EmailPattern(" a@b.c ")
    ensures !EmailPattern("a@b")
    ensures !EmailPattern("a @b.c")
  {
    assert MatchAt(" a@b.c ", 2, 4);
    forall i, j ensures !MatchAt("a@b", i, j) {
    }
    forall i, j ensures !MatchAt("a @b.c", i, j) {
    }
  }

  // ---------------------------------------------------------------------
  // The form
  // ---------------------------------------------------------------------

  datatype Status = Idle | Loading | Success | Error

  const InvalidEmailMessage := "Please enter a valid email address"
  const ThanksMessage := "Thank you for subscribing!"

  /** Whether the submit handler accepts `email`. */
  ghost predicate Accepts(email: string) {
    email != "" && EmailPattern(email)
  }

  /** The colour the message is shown in. */
  datatype Tone = Green | Red

  class Form {
    var email: string
    var status: Status
    var message: string

    /** Each status carries its own message; while loading, the message of
        the status the submit came from is still on screen. */
    ghost predicate Valid()
      reads this`status, this`message
    {
      (status == Idle ==> message == "") &&
      (status == Success ==> message == ThanksMessage) &&
      (status == Error ==> message == InvalidEmailMessage) &&
      (status == Loading ==> message in {"", InvalidEmailMessage, ThanksMessage})
    }

    constructor()
      ensures Valid()
      ensures email == "" && status == Idle && message == ""
    {
      email := "";
      status := Idle;
      message := "";
    }

    /** The input's `onChange`; the input is disabled while loading. */
    method Type(value: string)
      requires Valid() && !InputDisabled()
      modifies this`email
      ensures Valid() && email == value
    {
      email := value;
    }

    /** `handleSubmit`: an invalid address shows the error and stops; a
        valid one starts loading and leaves the message as it was. */
    method Submit()
      requires Valid() && !InputDisabled()
      modifies this`status, this`message
      ensures Valid()
      ensures !Accepts(email) ==> status == Error && message == InvalidEmailMessage
      ensures Accepts(email) ==> status == Loading && message == old(message)
    {
      var ok := email != "";
      if ok {
        ok := TestEmailPattern(email);
      }
      if !ok {
        status := Error;
        message := InvalidEmailMessage;
        return;
      }
      status := Loading;
    }

    /** The one-second timer after a valid submit: success, thanks, and the
        field is cleared. */
    method SubscribeCompleted()
      requires Valid()
      modifies this`status, this`message, this`email
      ensures Valid()
      ensures status == Success && message == ThanksMessage && email == ""
    {
      status := Success;
      message := ThanksMessage;
      email := "";
    }

    /** The three-second timer after success: back to idle, message cleared. */
    method ResetAfterSuccess()
      requires Valid()
      modifies this`status, this`message
      ensures Valid()
      ensures status == Idle && message == ""
    {
      status := Idle;
      message := "";
    }

    /** `disabled={status === 'loading'}` on the input and the button. */
    predicate InputDisabled()
      reads this`status
    {
      status == Loading
    }

    /** The button label. */
    function ButtonLabel(): (text: string)
      reads this`status
      ensures text == "Subscribing..." <==> InputDisabled()
      ensures text == "Subscribe" <==> !InputDisabled()
    {
      if status == Loading then "Subscribing..." else "Subscribe"
    }

    /** The paragraph under the form, when there is one, and its colour. */
    function ShownMessage(): (r: Option<(string, Tone)>)
      reads this`status, this`message
      requires Valid()
      ensures r.None? <==> message == ""
      ensures r.Some? ==> r.value.0 == message
      ensures r.Some? ==> (r.value.1 == Green <==> status == Success)
      ensures r.Some? && r.value.1 == Green ==> message == ThanksMessage
      ensures status == Idle ==> r.None?
      ensures status == Error ==> r == Some((InvalidEmailMessage, Red))
    {
      if message == "" then None
      else Some((message, if status == Success then Green else Red))
    }
  }

  /** A valid submit made right after an error keeps the red error text on
      screen while loading. */
  lemma StaleErrorWhileLoading(f: Form)
    requires f.Valid() && f.status == Loading && f.message == InvalidEmailMessage
    ensures f.ShownMessage() == Some((InvalidEmailMessage, Red))
  {
  }
}
