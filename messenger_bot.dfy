/**
 * messenger_e2ee_bot.py: `MessengerE2EEBot`, which drives a browser session
 * through a list of Messenger chats, sends every message to each target
 * whose chat looks end-to-end encrypted, and remembers whom it has already
 * written to.
 *
 * The browser is an input: what a chat page shows after navigation is a
 * `ChatView`. The navigations made and the messages typed are recorded in
 * fields of the bot; the file holding the replied users is left out.
 */
module MessengerBot {
  import opened Basics
  import opened Text

  // ------------------------------------------------------- the verdicts

  /** A `(bool, reason)` pair as the checks and the sender return it. */
  datatype Check = Check(ok: bool, reason: string)

  /** The phrases `is_chat_e2ee_by_ui` looks for, in order. */
  const Phrases: seq<string> := [
    "end-to-end encryption",
    "end to end encryption",
    "protected with end-to-end encryption",
    "Messages and calls are protected with end-to-end encryption",
    "This conversation is end-to-end encrypted",
    "End-to-end encrypted"
  ]

  /** The substrings `is_chat_e2ee_by_localstorage` looks for in keys. */
  const Suspects: seq<string> :=
    ["e2ee", "endtoend", "end-to-end", "crypto", "signal", "secret", "secure", "private_key", "messenger_key"]

  /** The page text the UI check searches: the lower-cased body text, or ""
      when the body element cannot be read. */
  function PageText(body: Option<string>): string {
    if body.Some? then Lower(body.value) else ""
  }

  /** The first phrase at or after `k` whose lower-cased form occurs in `text`. */
  function FirstPhraseFrom(ps: seq<string>, text: string, k: nat): (r: Option<nat>)
    requires k <= |ps|
    ensures r.Some? ==> k <= r.value < |ps| && Contains(text, Lower(ps[r.value]))
    ensures r.Some? ==> forall j :: k <= j < r.value ==> !Contains(text, Lower(ps[j]))
    ensures r.None? ==> forall j :: k <= j < |ps| ==> !Contains(text, Lower(ps[j]))
    decreases |ps| - k
  {
    if k == |ps| then None
    else if Contains(text, Lower(ps[k])) then Some(k)
    else FirstPhraseFrom(ps, text, k + 1)
  }

  /** `is_chat_e2ee_by_ui`: positive when a phrase occurs in the page text,
      naming the first one, or else when a lock / aria-label element exists. */
  function UiCheck(body: Option<string>, lockFound: bool): (r: Check)
    ensures lockFound ==> r.ok
    ensures !r.ok ==> r.reason == "No UI indicator text/lock found"
    ensures r.ok && !lockFound ==>
      exists j :: 0 <= j < |Phrases| && Contains(PageText(body), Lower(Phrases[j])) &&
                  r.reason == "UI phrase '" + Phrases[j] + "' found"
  {
    match FirstPhraseFrom(Phrases, PageText(body), 0)
    case Some(j) => Check(true, "UI phrase '" + Phrases[j] + "' found")
    case None =>
      if lockFound then Check(true, "lock/aria-label indicator found")
      else Check(false, "No UI indicator text/lock found")
  }

  /** The UI check is positive iff some lower-cased phrase occurs in the
      lower-cased page text or a lock element exists; a phrase found is the
      first of the list that occurs. */
  lemma UiCheckPositive(body: Option<string>, lockFound: bool)
    ensures UiCheck(body, lockFound).ok <==>
      (exists j :: 0 <= j < |Phrases| && Contains(PageText(body), Lower(Phrases[j]))) || lockFound
    ensures forall i :: 0 <= i < |Phrases| && Contains(PageText(body), Lower(Phrases[i])) &&
                        (forall j :: 0 <= j < i ==> !Contains(PageText(body), Lower(Phrases[j]))) ==>
      UiCheck(body, lockFound).reason == "UI phrase '" + Phrases[i] + "' found"
  {
    var r := FirstPhraseFrom(Phrases, PageText(body), 0);
    if r.Some? {
      var v := r.value;
      assert UiCheck(body, lockFound).reason == "UI phrase '" + Phrases[v] + "' found";
    }
  }

  /** `[k for s in suspects if s in k.lower()]`: one copy of the key per
      suspect it matches. */
  function Matches(key: string, suspects: seq<string>): seq<string>
    decreases |suspects|
  {
    if suspects == [] then []
    else
      (if Contains(Lower(key), suspects[0]) then [key] else []) + Matches(key, suspects[1..])
  }

  /** The matches of a key are copies of it, at most one per suspect, and
      there is one iff some suspect occurs in the lower-cased key. */
  lemma {:induction false} MatchesCopies(key: string, suspects: seq<string>)
    ensures var r := Matches(key, suspects);
      && |r| <= |suspects|
      && (forall j :: 0 <= j < |r| ==> r[j] == key)
      && (r != [] <==> exists j :: 0 <= j < |suspects| && Contains(Lower(key), suspects[j]))
    decreases |suspects|
  {
    if suspects != [] {
      MatchesCopies(key, suspects[1..]);
      assert forall j :: 1 <= j < |suspects| ==> suspects[j] == suspects[1..][j - 1];
    }
  }

  /** A key matching every suspect is reported once per suspect. */
  lemma {:induction false} MatchesEverySuspect(key: string, suspects: seq<string>)
    requires forall j :: 0 <= j < |suspects| ==> Contains(Lower(key), suspects[j])
    ensures Matches(key, suspects) == seq(|suspects|, _ => key)
    decreases |suspects|
  {
    if suspects != [] {
      MatchesEverySuspect(key, suspects[1..]);
    }
  }

  /** The storage keys that match the suspect substrings: each key, in
      order, once per suspect found in its lower-cased form. */
  function Found(keys: seq<string>, suspects: seq<string>): seq<string>
    decreases |keys|
  {
    if keys == [] then [] else Matches(keys[0], suspects) + Found(keys[1..], suspects)
  }

  /** Every match is one of the keys, and there is one iff some lower-cased
      key contains some suspect. */
  lemma {:induction false} FoundMatches(keys: seq<string>, suspects: seq<string>)
    ensures var r := Found(keys, suspects);
      && (forall j :: 0 <= j < |r| ==> r[j] in keys)
      && (r != [] <==>
          exists i, j :: 0 <= i < |keys| && 0 <= j < |suspects| && Contains(Lower(keys[i]), suspects[j]))
    decreases |keys|
  {
    if keys != [] {
      MatchesCopies(keys[0], suspects);
      FoundMatches(keys[1..], suspects);
      assert forall i :: 1 <= i < |keys| ==> keys[i] == keys[1..][i - 1];
    }
  }

  /** `found[:5]`: at most five matches, the first ones. */
  function Reported(found: seq<string>): seq<string> {
    if |found| <= 5 then found else found[..5]
  }

  /** At most five matches are reported: the first ones, all of them when
      there are no more than five. */
  lemma ReportedFirstFive(found: seq<string>)
    ensures var r := Reported(found);
      |r| <= 5 && |r| <= |found| && r == found[..|r|] && (|found| <= 5 ==> r == found)
  {
  }

  /** The items of Python's `str(list)` of strings, each quoted with single
      quotes, separated by ", ". */
  function ReprItems(items: seq<string>): string
    decreases |items|
  {
    if items == [] then ""
    else if |items| == 1 then "'" + items[0] + "'"
    else "'" + items[0] + "', " + ReprItems(items[1..])
  }

  function ListRepr(items: seq<string>): string {
    "[" + ReprItems(items) + "]"
  }

  /** What reading `localStorage` through the driver gave. */
  datatype Storage =
    | NotDict                    // the script returned something other than a dict
    | Items(keys: seq<string>)   // the dict's keys
    | Failed(error: string)      // the script raised

  /** `is_chat_e2ee_by_localstorage`: positive iff some lower-cased key
      contains a suspect substring, reporting the first five matches. */
  function StorageCheck(storage: Storage): (r: Check)
    ensures r.ok ==> storage.Items?
    ensures storage.NotDict? ==> r.reason == "localStorage unreadable"
    ensures storage.Failed? ==> r.reason == "localStorage check exception: " + storage.error
    ensures storage.Items? && !r.ok ==> r.reason == "No suspicious localStorage keys found"
  {
    match storage
    case NotDict => Check(false, "localStorage unreadable")
    case Failed(e) => Check(false, "localStorage check exception: " + e)
    case Items(keys) =>
      var found := Found(keys, Suspects);
      if found != [] then
        Check(true, "localStorage keys suggesting encryption found: " + ListRepr(Reported(found)))
      else Check(false, "No suspicious localStorage keys found")
  }

  /** The storage check is positive iff the storage was read and some
      lower-cased key contains a suspect substring. */
  lemma StorageCheckPositive(storage: Storage)
    ensures StorageCheck(storage).ok <==>
      storage.Items? && exists i, j :: 0 <= i < |storage.keys| && 0 <= j < |Suspects| &&
                                      Contains(Lower(storage.keys[i]), Suspects[j])
  {
    if storage.Items? {
      FoundMatches(storage.keys, Suspects);
    }
  }

  /** `ensure_chat_is_e2ee`: both checks run; the verdict is positive iff
      either is; it carries the UI reason whenever the UI check is positive,
      and both reasons when neither is. */
  function EnsureChatIsE2EE(ui: Check, ls: Check): (r: Check)
    ensures r.ok <==> ui.ok || ls.ok
    ensures ui.ok ==> r.reason == "UI check ok: " + ui.reason
    ensures !ui.ok && ls.ok ==> r.reason == "localStorage check ok: " + ls.reason
    ensures !r.ok ==> r.reason == "No E2EE evidence. UI: " + ui.reason + "; Storage: " + ls.reason
  {
    if ui.ok then Check(true, "UI check ok: " + ui.reason)
    else if ls.ok then Check(true, "localStorage check ok: " + ls.reason)
    else Check(false, "No E2EE evidence. UI: " + ui.reason + "; Storage: " + ls.reason)
  }

  // ------------------------------------------------------- one target

  /** How the message box takes the messages: all of them, or raising
      while the `index`-th (from 0) is typed. */
  datatype Keys = Accepts | FailsAt(index: nat, error: string)

  /** What the chat page shows once the bot has navigated to it. */
  datatype ChatView = ChatView(url: string, body: Option<string>, lockFound: bool,
                               storage: Storage, boxFound: bool, keys: Keys)

  /** What `send_messages_to_target` makes of an opened chat: whether the
      URL is a login or checkpoint page, the E2EE verdict, whether a message
      box exists, and how it takes the keys. */
  datatype Page = Page(loginPage: bool, verdict: Check, boxFound: bool, keys: Keys)

  /** The current URL shows the login page or a checkpoint. */
  predicate LoginPage(url: string) {
    Contains(url, "login") || Contains(url, "checkpoint")
  }

  function Open(view: ChatView): Page {
    Page(LoginPage(view.url), EnsureChatIsE2EE(UiCheck(view.body, view.lockFound), StorageCheck(view.storage)),
         view.boxFound, view.keys)
  }

  /** One message typed and entered into one chat. */
  datatype Delivery = Delivery(target: string, message: string)

  function ChatUrl(target: string): string {
    "https://www.messenger.com/t/" + target
  }

  const LoginWord := "not logged in"
  const CheckpointWord := "checkpoint"
  const NotLoggedIn := LoginWord + " / " + CheckpointWord

  /** `send_messages_to_target` navigates unless the target is empty or replied. */
  predicate Navigates(replied: set<string>, target: string) {
    target != "" && target !in replied
  }

  /** It reaches the message box: logged in, E2EE, box found. */
  predicate Types(replied: set<string>, target: string, page: Page) {
    Navigates(replied, target) && !page.loginPage && page.verdict.ok && page.boxFound
  }

  /** How many of `n` messages are entered before the box raises. */
  function Entered(keys: Keys, n: nat): (r: nat)
    ensures r <= n
    ensures r < n <==> keys.FailsAt? && keys.index < n
  {
    if keys.FailsAt? && keys.index < n then keys.index else n
  }

  function Deliveries(target: string, messages: seq<string>): (r: seq<Delivery>)
    ensures |r| == |messages|
    ensures forall j :: 0 <= j < |r| ==> r[j] == Delivery(target, messages[j])
  {
    seq(|messages|, j requires 0 <= j < |messages| => Delivery(target, messages[j]))
  }

  /** What `send_messages_to_target` returns, `replied` being the replied set. */
  function Attempt(replied: set<string>, target: string, messages: seq<string>, page: Page): Check {
    if target == "" then Check(false, "empty id")
    else if target in replied then Check(false, "already replied")
    else if page.loginPage then Check(false, NotLoggedIn)
    else if !page.verdict.ok then Check(false, "chat not E2EE: " + page.verdict.reason)
    else if !page.boxFound then Check(false, "message box not found")
    else if Entered(page.keys, |messages|) < |messages| then Check(false, "send error: " + page.keys.error)
    else Check(true, "sent")
  }

  /** The messages it enters. */
  function DeliveredBy(replied: set<string>, target: string, messages: seq<string>, page: Page): seq<Delivery> {
    if Types(replied, target, page) then Deliveries(target, messages[..Entered(page.keys, |messages|)]) else []
  }

  /** The guards come before any navigation: an empty or replied target is
      refused without visiting its chat or typing anything. */
  lemma GuardsBeforeNavigation(replied: set<string>, target: string, messages: seq<string>, page: Page)
    ensures target == "" ==>
      Attempt(replied, target, messages, page) == Check(false, "empty id") && !Navigates(replied, target)
    ensures target != "" && target in replied ==>
      Attempt(replied, target, messages, page) == Check(false, "already replied") && !Navigates(replied, target)
    ensures !Navigates(replied, target) ==> DeliveredBy(replied, target, messages, page) == []
  {
  }

  /** A target succeeds exactly when it was not refused, the page is logged
      in, the chat looks E2EE, the box exists and takes every message; and
      success means every message was entered, in order. */
  lemma AttemptSucceeds(replied: set<string>, target: string, messages: seq<string>, page: Page)
    ensures Attempt(replied, target, messages, page).ok <==>
      Types(replied, target, page) && (page.keys.FailsAt? ==> page.keys.index >= |messages|)
    ensures Attempt(replied, target, messages, page).ok ==>
      DeliveredBy(replied, target, messages, page) == Deliveries(target, messages)
  {
    if Attempt(replied, target, messages, page).ok {
      assert messages[..|messages|] == messages;
    }
  }

  // ------------------------------------------------------- all targets

  /** `send_to_all_targets` gives up on a failure whose lower-cased reason
      mentions a login or a checkpoint. */
  predicate StopsRun(c: Check) {
    !c.ok && (Contains(Lower(c.reason), LoginWord) || Contains(Lower(c.reason), CheckpointWord))
  }

  /** No character of `s`, whatever its case, is the letter `c`, so the
      lower-cased `s` cannot contain a `p` holding `c`. */
  lemma LowerAvoids(s: string, c: char, p: string, k: nat)
    requires 'a' <= c <= 'z' && k < |p| && p[k] == c
    requires forall i :: 0 <= i < |s| ==> s[i] != c && s[i] != (c as int - 32) as char
    ensures !Contains(Lower(s), p)
  {
    NotContainsForeign(Lower(s), p, k, x => x != c);
  }

  /** The login page stops the run. */
  lemma LoginPageStops()
    ensures StopsRun(Check(false, NotLoggedIn))
  {
    var n := NotLoggedIn;
    var tail := " / " + CheckpointWord;
    assert n == LoginWord + tail;
    assert forall i :: 0 <= i < |n| ==> !('A' <= n[i] <= 'Z');
    LowerOfLowercase(n);
    assert n[0..|LoginWord|] == LoginWord;
    ContainsAt(n, LoginWord, 0);
  }

  /** The refusals before navigation never stop the run. */
  lemma GuardsDoNotStop()
    ensures !StopsRun(Check(false, "empty id"))
    ensures !StopsRun(Check(false, "already replied"))
  {
    var e := "empty id";
    assert forall i :: 0 <= i < |e| ==> e[i] != 'n' && e[i] != 'N' && e[i] != 'c' && e[i] != 'C';
    LowerAvoids(e, 'n', LoginWord, 0);
    LowerAvoids(e, 'c', CheckpointWord, 0);
    var a := "already replied";
    assert forall i :: 0 <= i < |a| ==> a[i] != 'n' && a[i] != 'N' && a[i] != 'c' && a[i] != 'C';
    LowerAvoids(a, 'n', LoginWord, 0);
    LowerAvoids(a, 'c', CheckpointWord, 0);
  }

  /** Neither does a missing message box. */
  lemma NoBoxDoesNotStop()
    ensures !StopsRun(Check(false, "message box not found"))
  {
    var m := "message box not found";
    assert forall i :: 0 <= i < |m| ==> m[i] != 'l' && m[i] != 'L' && m[i] != 'c' && m[i] != 'C';
    LowerAvoids(m, 'l', LoginWord, 4);
    LowerAvoids(m, 'c', CheckpointWord, 0);
  }

  /** The bot's recorded state over a run of `send_to_all_targets`. */
  datatype Run = Run(replied: set<string>, visited: seq<string>, delivered: seq<Delivery>,
                     outcomes: seq<Check>, stopped: bool)

  /** One target of the loop. */
  function Step(r: Run, target: string, messages: seq<string>, page: Page): Run {
    var c := Attempt(r.replied, target, messages, page);
    Run(if c.ok then r.replied + {target} else r.replied,
        r.visited + (if Navigates(r.replied, target) then [ChatUrl(target)] else []),
        r.delivered + DeliveredBy(r.replied, target, messages, page),
        r.outcomes + [c],
        StopsRun(c))
  }

  /** The state after the loop has looked at the first `k` targets, the
      `i`-th chat opening as `pages(i)`; nothing happens after a stop. */
  function RunOn(r0: Run, targets: seq<string>, messages: seq<string>, pages: nat -> Page, k: nat): Run
    requires k <= |targets|
    decreases k
  {
    if k == 0 then r0
    else
      var r := RunOn(r0, targets, messages, pages, k - 1);
      if r.stopped then r else Step(r, targets[k - 1], messages, pages(k - 1))
  }

  /** Once stopped, the run stays as it is. */
  lemma {:induction false} StoppedStays(r0: Run, targets: seq<string>, messages: seq<string>,
                                        pages: nat -> Page, j: nat, k: nat)
    requires j <= k <= |targets| && RunOn(r0, targets, messages, pages, j).stopped
    ensures RunOn(r0, targets, messages, pages, k) == RunOn(r0, targets, messages, pages, j)
    decreases k
  {
    if k > j {
      StoppedStays(r0, targets, messages, pages, j, k - 1);
    }
  }

  /** One outcome per target looked at; the run stops at the first failure
      that names a login or a checkpoint, and only there. */
  lemma {:induction false} RunOutcomes(r0: Run, targets: seq<string>, messages: seq<string>,
                                       pages: nat -> Page, k: nat)
    requires k <= |targets| && r0.outcomes == [] && !r0.stopped
    ensures var r := RunOn(r0, targets, messages, pages, k);
      && |r.outcomes| <= k
      && (!r.stopped ==> |r.outcomes| == k)
      && (r.stopped <==> exists j :: 0 <= j < |r.outcomes| && StopsRun(r.outcomes[j]))
      && (forall j :: 0 <= j < |r.outcomes| - 1 ==> !StopsRun(r.outcomes[j]))
    decreases k
  {
    if k > 0 {
      RunOutcomes(r0, targets, messages, pages, k - 1);
      var r := RunOn(r0, targets, messages, pages, k - 1);
      if !r.stopped {
        var r' := RunOn(r0, targets, messages, pages, k);
        var c := Attempt(r.replied, targets[k - 1], messages, pages(k - 1));
        assert r'.outcomes == r.outcomes + [c] && r'.stopped == StopsRun(c);
        assert forall j :: 0 <= j < |r.outcomes| ==> r'.outcomes[j] == r.outcomes[j];
        assert r'.outcomes[|r.outcomes|] == c;
      }
    }
  }

  lemma ContainsExtend<T>(s: seq<T>, p: seq<T>, t: seq<T>)
    requires Contains(s, p)
    ensures Contains(s + t, p)
  {
    var i := ContainsIndex(s, p);
    assert (s + t)[i..i + |p|] == s[i..i + |p|];
    ContainsAt(s + t, p, i);
  }

  lemma ContainsEnd<T>(s: seq<T>, p: seq<T>)
    ensures Contains(s + p, p)
  {
    assert (s + p)[|s|..|s| + |p|] == p;
    ContainsAt(s + p, p, |s|);
  }

  /** A target joins the replied set only once every message has been
      entered into its chat, one after the other; the replied set only grows. */
  lemma {:induction false} RepliedAfterAllSent(r0: Run, targets: seq<string>, messages: seq<string>,
                                               pages: nat -> Page, k: nat, t: string)
    requires k <= |targets|
    ensures r0.replied <= RunOn(r0, targets, messages, pages, k).replied
    ensures t in RunOn(r0, targets, messages, pages, k).replied && t !in r0.replied ==>
      Contains(RunOn(r0, targets, messages, pages, k).delivered, Deliveries(t, messages))
    decreases k
  {
    if k > 0 {
      RepliedAfterAllSent(r0, targets, messages, pages, k - 1, t);
      var r := RunOn(r0, targets, messages, pages, k - 1);
      if !r.stopped {
        var target, page := targets[k - 1], pages(k - 1);
        var added := DeliveredBy(r.replied, target, messages, page);
        if t in r.replied && t !in r0.replied {
          ContainsExtend(r.delivered, Deliveries(t, messages), added);
        } else if Attempt(r.replied, target, messages, page).ok && t == target {
          AttemptSucceeds(r.replied, target, messages, page);
          ContainsEnd(r.delivered, added);
        }
      }
    }
  }

  /** The pages the chats open as, one per target position. */
  function Opened(views: nat -> ChatView): nat -> Page {
    (i: nat) => Open(views(i))
  }

  class MessengerE2EEBot {
    var repliedUsers: set<string>
    /** The chat URLs the driver was sent to. */
    var visited: seq<string>
    /** The messages typed and entered, in order. */
    var delivered: seq<Delivery>

    /** `__init__` with `load_replied_users`: the ids stored in
        replied_users.json, or none when it is missing or unreadable. */
    constructor (stored: Option<seq<string>>)
      ensures repliedUsers == (if stored.Some? then set u | u in stored.value else {})
      ensures visited == [] && delivered == []
    {
      repliedUsers := if stored.Some? then set u | u in stored.value else {};
      visited, delivered := [], [];
    }

    predicate HasReplied(uid: string)
      reads this
    {
      uid in repliedUsers
    }

    /** `mark_replied`: `uid` becomes replied, every other id keeps its status. */
    method MarkReplied(uid: string)
      modifies this`repliedUsers
      ensures repliedUsers == old(repliedUsers) + {uid}
      ensures HasReplied(uid)
      ensures forall v :: v != uid ==> (HasReplied(v) <==> old(HasReplied(v)))
    {
      repliedUsers := repliedUsers + {uid};
    }

    /** `send_messages_to_target`, the chat showing `view` once opened. */
    method SendMessagesToTarget(target: string, messages: seq<string>, view: ChatView) returns (r: Check)
      modifies this`repliedUsers, this`visited, this`delivered
      ensures r == Attempt(old(repliedUsers), target, messages, Open(view))
      ensures repliedUsers == (if r.ok then old(repliedUsers) + {target} else old(repliedUsers))
      ensures visited == old(visited) + (if Navigates(old(repliedUsers), target) then [ChatUrl(target)] else [])
      ensures delivered == old(delivered) + DeliveredBy(old(repliedUsers), target, messages, Open(view))
    {
      if target == "" {
        return Check(false, "empty id");
      }
      if HasReplied(target) {
        return Check(false, "already replied");
      }
      visited := visited + [ChatUrl(target)];
      r := SendOnPage(target, messages, Open(view));
    }

    /** The part of `send_messages_to_target` after the navigation, the chat
        having opened as `page`. */
    method SendOnPage(target: string, messages: seq<string>, page: Page) returns (r: Check)
      requires Navigates(repliedUsers, target)
      modifies this`repliedUsers, this`delivered
      ensures r == Attempt(old(repliedUsers), target, messages, page)
      ensures repliedUsers == (if r.ok then old(repliedUsers) + {target} else old(repliedUsers))
      ensures delivered == old(delivered) + DeliveredBy(old(repliedUsers), target, messages, page)
    {
      if page.loginPage {
        return Check(false, NotLoggedIn);
      }
      if !page.verdict.ok {
        return Check(false, "chat not E2EE: " + page.verdict.reason);
      }
      if !page.boxFound {
        return Check(false, "message box not found");
      }
      TypeMessages(target, messages, page.keys);
      if Entered(page.keys, |messages|) < |messages| {
        return Check(false, "send error: " + page.keys.error);
      }
      MarkReplied(target);
      return Check(true, "sent");
    }

    /** The `for` loop of `send_messages_to_target`: each message is typed
        and entered until the box raises. */
    method TypeMessages(target: string, messages: seq<string>, keys: Keys)
      modifies this`delivered
      ensures delivered == old(delivered) + Deliveries(target, messages[..Entered(keys, |messages|)])
    {
      var i := 0;
      while i < |messages|
        invariant i <= Entered(keys, |messages|)
        invariant delivered == old(delivered) + Deliveries(target, messages[..i])
      {
        if keys.FailsAt? && keys.index == i {
          return;
        }
        assert messages[..i + 1] == messages[..i] + [messages[i]];
        delivered := delivered + [Delivery(target, messages[i])];
        i := i + 1;
      }
    }

    /** The recorded state, as a `Run`. */
    ghost function Current(outcomes: seq<Check>): Run
      reads this
    {
      Run(repliedUsers, visited, delivered, outcomes, false)
    }

    /** One target of `send_to_all_targets`, as `Step` states it. */
    method VisitTarget(target: string, messages: seq<string>, view: ChatView, ghost outcomes: seq<Check>)
      returns (c: Check)
      modifies this`repliedUsers, this`visited, this`delivered
      ensures Run(repliedUsers, visited, delivered, outcomes + [c], StopsRun(c))
           == Step(old(Current(outcomes)), target, messages, Open(view))
    {
      c := SendMessagesToTarget(target, messages, view);
    }

    /** `send_to_all_targets`: nothing without messages or targets;
        otherwise every target in file order until a stopping failure. */
    method SendToAllTargets(messageFile: Option<string>, targetsFile: Option<string>, views: nat -> ChatView)
      returns (outcomes: seq<Check>)
      modifies this`repliedUsers, this`visited, this`delivered
      ensures var messages, targets := ReadLines(messageFile), ReadLines(targetsFile);
        if messages == [] || targets == [] then
          outcomes == [] && repliedUsers == old(repliedUsers) && visited == old(visited) && delivered == old(delivered)
        else
          var r := RunOn(Run(old(repliedUsers), old(visited), old(delivered), [], false),
                         targets, messages, Opened(views), |targets|);
          repliedUsers == r.replied && visited == r.visited && delivered == r.delivered && outcomes == r.outcomes
    {
      var messages := ReadLines(messageFile);
      var targets := ReadLines(targetsFile);
      if messages == [] || targets == [] {
        return [];
      }
      ghost var r0 := Current([]);
      ghost var pages := Opened(views);
      outcomes := [];
      var i := 0;
      while i < |targets|
        invariant i <= |targets| && Current(outcomes) == RunOn(r0, targets, messages, pages, i)
      {
        assert pages(i) == Open(views(i));
        var c := VisitTarget(targets[i], messages, views(i), outcomes);
        outcomes := outcomes + [c];
        if StopsRun(c) {
          StoppedStays(r0, targets, messages, pages, i + 1, |targets|);
          return;
        }
        i := i + 1;
      }
    }
  }
}
