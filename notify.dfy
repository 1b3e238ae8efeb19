/** The launch-notification sign-up, in the React form
    (src/components/NotifyForm.jsx) and in the static page script
    (script.js).  Both test the address against `^[^\s@]+@[^\s@]+\.[^\s@]+$`,
    wait 1.5 seconds, and then add a new address to the subscriber list kept
    in local storage under `brahma26_subscribers`.  The list is modelled as
    the sequence of addresses that `JSON.parse` gives back; the timers are
    separate methods the caller runs in order. */
module Notify {
  import opened Common
  import Json

  // ---------------------------------------------------------- address check

  /** `[^\s@]+` matches the whole of `s`. */
  predicate Plain(s: string) {
    s != [] && forall k :: 0 <= k < |s| ==> !IsSpace(s[k]) && s[k] != '@'
  }

  /** The language of the pattern: a plain part, '@', a plain part, '.',
      and a plain part, where `i` and `j` are the positions of the '@' and
      the '.' the match uses. */
  predicate PatternMatches(s: string) {
    exists i, j :: 0 <= i < j < |s| && s[i] == '@' && s[j] == '.' &&
                   Plain(s[..i]) && Plain(s[i + 1..j]) && Plain(s[j + 1..])
  }

  predicate IsAt(c: char) { c == '@' }

  /** A direct test: no white space, exactly one '@', not first, and a '.'
      at least two places after it and before the last character. */
  predicate ValidEmail(s: string) {
    (forall k :: 0 <= k < |s| ==> !IsSpace(s[k])) &&
    match FirstIndex(s, IsAt)
    case None => false
    case Some(i) => 0 < i && i + 2 < |s| && '@' !in s[i + 1..] && '.' in s[i + 2..|s| - 1]
  }

  /** The direct test accepts exactly the addresses the pattern matches. */
  lemma ValidEmailIffPattern(s: string)
    ensures ValidEmail(s) <==> PatternMatches(s)
  {
    if PatternMatches(s) {
      PatternIsValid(s);
    }
    if ValidEmail(s) {
      ValidIsPattern(s);
    }
  }

  lemma PatternIsValid(s: string)
    requires PatternMatches(s)
    ensures ValidEmail(s)
  {
    var i, j :| 0 <= i < j < |s| && s[i] == '@' && s[j] == '.' &&
                Plain(s[..i]) && Plain(s[i + 1..j]) && Plain(s[j + 1..]);
    PartsArePlain(s, i, j);
    FirstIndexAt(s, i);
    assert '@' !in s[i + 1..];
    assert s[i + 2..|s| - 1][j - i - 2] == '.';
  }

  lemma PartsArePlain(s: string, i: int, j: int)
    requires 0 <= i < j < |s| && s[i] == '@' && s[j] == '.'
    requires Plain(s[..i]) && Plain(s[i + 1..j]) && Plain(s[j + 1..])
    ensures forall k :: 0 <= k < |s| ==> !IsSpace(s[k]) && (k != i ==> s[k] != '@')
  {
    forall k | 0 <= k < |s|
      ensures !IsSpace(s[k]) && (k != i ==> s[k] != '@')
    {
      if k < i { PlainAt(s[..i], k); assert s[..i][k] == s[k]; }
      else if i < k < j { PlainAt(s[i + 1..j], k - i - 1); assert s[i + 1..j][k - i - 1] == s[k]; }
      else if j < k { PlainAt(s[j + 1..], k - j - 1); assert s[j + 1..][k - j - 1] == s[k]; }
    }
  }

  lemma PlainAt(t: string, k: int)
    requires Plain(t) && 0 <= k < |t|
    ensures !IsSpace(t[k]) && t[k] != '@'
  {
  }

  lemma FirstIndexAt(s: string, i: nat)
    requires i < |s| && s[i] == '@' && forall k :: 0 <= k < i ==> s[k] != '@'
    ensures FirstIndex(s, IsAt) == Some(i)
  {
    var r := FirstIndex(s, IsAt);
    assert r.Some?;
  }

  lemma ValidIsPattern(s: string)
    requires ValidEmail(s)
    ensures PatternMatches(s)
  {
    var i := FirstIndex(s, IsAt).value;
    var m :| 0 <= m < |s[i + 2..|s| - 1]| && s[i + 2..|s| - 1][m] == '.';
    var j := i + 2 + m;
    assert s[j] == '.';
    forall k | i + 1 <= k < |s|
      ensures s[k] != '@'
    {
      assert s[i + 1..][k - i - 1] == s[k];
    }
    assert Plain(s[..i]);
    assert Plain(s[i + 1..j]);
    assert Plain(s[j + 1..]);
  }

  // -------------------------------------------------------- subscriber list

  /** The list after a confirmed address: an address already listed leaves
      it as it is, a new one is appended. */
  function Subscribe(list: seq<string>, email: string): (r: seq<string>)
    ensures email in r
    ensures forall x :: x in r <==> x in list || x == email
    ensures |r| == if email in list then |list| else |list| + 1
    ensures r[..|list|] == list
  {
    if email in list then list else list + [email]
  }

  /** Subscribing keeps the list free of duplicates. */
  lemma SubscribeKeepsDistinct(list: seq<string>, email: string)
    requires NoDuplicates(list)
    ensures NoDuplicates(Subscribe(list, email))
  {
  }

  /** Subscribing the same address twice is the same as once. */
  lemma SubscribeIdempotent(list: seq<string>, email: string)
    ensures Subscribe(Subscribe(list, email), email) == Subscribe(list, email)
  {
  }

  /** The text stored in local storage reads back as the list. */
  lemma StoredListReadsBack(list: seq<string>)
    ensures Json.Parse(Json.Stringify(Encode(list))) == Some(Encode(list))
  {
    Json.ParseStringify(Encode(list));
  }

  /** The list as the JSON array `JSON.stringify` writes. */
  function Encode(list: seq<string>): (v: Json.Json)
    ensures v.JArr? && |v.items| == |list|
    ensures forall k :: 0 <= k < |list| ==> v.items[k] == Json.JStr(list[k])
  {
    Json.JArr(seq(|list|, k requires 0 <= k < |list| => Json.JStr(list[k])))
  }

  // ------------------------------------------------------------ React form

  /** The form's state and the stored list. */
  datatype FormState = FormState(email: string, message: string, messageType: string,
                                 isSubmitting: bool, subscribers: seq<string>)

  /** `handleSubmit` up to the timer: a malformed address only sets the
      error; a valid one starts submitting and hands the address to the
      timer. */
  function Submitted(s: FormState): (r: (FormState, Option<string>))
    ensures !ValidEmail(s.email) ==>
              r.1.None? && r.0 == s.(message := "Please enter a valid email address", messageType := "error")
    ensures ValidEmail(s.email) ==> r.1 == Some(s.email) && r.0 == s.(isSubmitting := true)
  {
    if !ValidEmail(s.email) then (s.(message := "Please enter a valid email address", messageType := "error"), None)
    else (s.(isSubmitting := true), Some(s.email))
  }

  /** The 1.5-second timer for the address `email`. */
  function Delivered(s: FormState, email: string): (r: FormState)
    ensures r.subscribers == Subscribe(s.subscribers, email)
    ensures !r.isSubmitting
    ensures email in s.subscribers ==> r == s.(message := "You're already on the list!", messageType := "", isSubmitting := false)
    ensures email !in s.subscribers ==> r.email == "" && r.messageType == "success"
  {
    if email in s.subscribers then
      s.(message := "You're already on the list!", messageType := "", isSubmitting := false)
    else
      s.(subscribers := s.subscribers + [email], message := "Perfect! You'll be the first to know when we launch.",
         messageType := "success", email := "", isSubmitting := false)
  }

  /** A submission end to end: a malformed address never reaches the list;
      a valid one is listed once afterwards, the list stays duplicate-free,
      and the form is no longer submitting. */
  lemma SubmitThenDeliver(s: FormState)
    requires NoDuplicates(s.subscribers)
    ensures var (t, pending) := Submitted(s);
            (pending.None? ==> t.subscribers == s.subscribers) &&
            (pending.Some? ==> var u := Delivered(t, pending.value);
                               u.subscribers == Subscribe(s.subscribers, s.email) && NoDuplicates(u.subscribers) &&
                               ValidEmail(s.email) && s.email in u.subscribers && !u.isSubmitting)
  {
    SubscribeKeepsDistinct(s.subscribers, s.email);
  }

  class NotifyForm {
    var email: string
    var message: string
    var messageType: string
    var isSubmitting: bool
    var subscribers: seq<string>

    constructor(stored: seq<string>)
      ensures State() == FormState("", "", "", false, stored)
    {
      email, message, messageType, isSubmitting, subscribers := "", "", "", false, stored;
    }

    function State(): FormState
      reads this
    {
      FormState(email, message, messageType, isSubmitting, subscribers)
    }

    /** The synchronous part of `handleSubmit`; the result is the address
        the timer will use, if one is started. */
    method HandleSubmit() returns (pending: Option<string>)
      modifies this
      ensures (State(), pending) == Submitted(old(State()))
    {
      if !ValidEmail(email) {
        message := "Please enter a valid email address";
        messageType := "error";
        return None;
      }
      isSubmitting := true;
      return Some(email);
    }

    /** The timer body: read the stored list, push a new address and store
        it back. */
    method Deliver(captured: string)
      modifies this
      ensures State() == Delivered(old(State()), captured)
    {
      var list := subscribers;
      if captured in list {
        message := "You're already on the list!";
        messageType := "";
      } else {
        list := list + [captured];
        subscribers := list;
        message := "Perfect! You'll be the first to know when we launch.";
        messageType := "success";
        email := "";
      }
      isSubmitting := false;
    }

    /** The 5-second timer that clears the message. */
    method ClearMessage()
      modifies this
      ensures State() == old(State()).(message := "", messageType := "")
    {
      message := "";
      messageType := "";
    }
  }

  // ----------------------------------------------------- static page script

  /** The form elements of the static page and the stored list. */
  datatype PageState = PageState(input: string, messageText: string, messageClass: string,
                                 disabled: bool, buttonText: string, subscribers: seq<string>)

  /** The submit listener up to the timer. */
  function PageSubmitted(s: PageState): (r: (PageState, Option<string>))
    ensures !ValidEmail(s.input) ==> r.1.None? && r.0.subscribers == s.subscribers && r.0.messageClass == "notify-message error"
    ensures ValidEmail(s.input) ==> r.1 == Some(s.input) && r.0.disabled
  {
    if !ValidEmail(s.input) then
      (s.(messageText := "Please enter a valid email address", messageClass := "notify-message error"), None)
    else (s.(disabled := true, buttonText := "SUBSCRIBING..."), Some(s.input))
  }

  /** The 1.5-second timer of the page. */
  function PageDelivered(s: PageState, email: string): (r: PageState)
    ensures r.subscribers == Subscribe(s.subscribers, email)
    ensures !r.disabled && r.buttonText == "NOTIFY ME"
    ensures email !in s.subscribers ==> r.input == "" && r.messageClass == "notify-message success"
    ensures email in s.subscribers ==> r.input == s.input && r.messageClass == "notify-message"
  {
    if email in s.subscribers then
      s.(messageText := "You're already subscribed!", messageClass := "notify-message",
         buttonText := "NOTIFY ME", disabled := false)
    else
      s.(subscribers := s.subscribers + [email], messageText := "SUCCESS! You'll be notified when we launch.",
         messageClass := "notify-message success", input := "", buttonText := "NOTIFY ME", disabled := false)
  }

  /** The page and the React form store the same lists: for the same list
      and address, both end with the same subscribers. */
  lemma PageAgreesWithForm(s: FormState, p: PageState)
    requires s.email == p.input && s.subscribers == p.subscribers
    ensures (Submitted(s).1 == PageSubmitted(p).1)
    ensures Submitted(s).1.Some? ==>
              Delivered(Submitted(s).0, s.email).subscribers == PageDelivered(PageSubmitted(p).0, p.input).subscribers
  {
  }

  class NotifySection {
    var input: string
    var messageText: string
    var messageClass: string
    var disabled: bool
    var buttonText: string
    var subscribers: seq<string>

    constructor(stored: seq<string>)
      ensures State() == PageState("", "", "notify-message", false, "NOTIFY ME", stored)
    {
      input, messageText, messageClass, disabled, buttonText, subscribers :=
        "", "", "notify-message", false, "NOTIFY ME", stored;
    }

    function State(): PageState
      reads this
    {
      PageState(input, messageText, messageClass, disabled, buttonText, subscribers)
    }

    method Submit() returns (pending: Option<string>)
      modifies this
      ensures (State(), pending) == PageSubmitted(old(State()))
    {
      var email := input;
      if !ValidEmail(email) {
        messageText := "Please enter a valid email address";
        messageClass := "notify-message error";
        return None;
      }
      disabled := true;
      buttonText := "SUBSCRIBING...";
      return Some(email);
    }

    method Deliver(captured: string)
      modifies this
      ensures State() == PageDelivered(old(State()), captured)
    {
      var list := subscribers;
      if captured in list {
        messageText := "You're already subscribed!";
        messageClass := "notify-message";
      } else {
        list := list + [captured];
        subscribers := list;
        messageText := "SUCCESS! You'll be notified when we launch.";
        messageClass := "notify-message success";
        input := "";
      }
      buttonText := "NOTIFY ME";
      disabled := false;
    }

    method ClearMessage()
      modifies this
      ensures State() == old(State()).(messageText := "", messageClass := "notify-message")
    {
      messageText := "";
      messageClass := "notify-message";
    }
  }
}
