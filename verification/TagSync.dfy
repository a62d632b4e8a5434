/** The tags a broadcast client asks for and the tags the server keeps for it: an API
    thread changes the client's list and queues messages, the loop sends them and the
    whole list at each handshake, the server applies what arrives. */
module TagSync {
  import opened Basics

  type Tags = seq<string>

  // ----- The lists, as both sides keep them

  function AddTag(list: Tags, tag: string): Tags { if tag in list then list else list + [tag] }

  function AddTags(list: Tags, tags: Tags): Tags
    decreases |tags|
  {
    if tags == [] then list else AddTags(AddTag(list, tags[0]), tags[1..])
  }

  /** Where a tag stands first, or the length. */
  function Find(list: Tags, tag: string): (i: nat)
    ensures i <= |list| && (i < |list| <==> tag in list) && (i < |list| ==> list[i] == tag)
    ensures forall j :: 0 <= j < i ==> list[j] != tag
  {
    if list == [] then 0 else if list[0] == tag then 0 else 1 + Find(list[1..], tag)
  }

  /** Only the first occurrence goes. */
  function RemoveTag(list: Tags, tag: string): Tags {
    var i := Find(list, tag);
    if i < |list| then list[..i] + list[i + 1..] else list
  }

  function RemoveTags(list: Tags, tags: Tags): Tags
    decreases |tags|
  {
    if tags == [] then list else RemoveTags(RemoveTag(list, tags[0]), tags[1..])
  }

  predicate Distinct(list: Tags) { forall i, j :: 0 <= i < j < |list| ==> list[i] != list[j] }

  datatype Message = Confirm | Subscribe(tags: Tags) | Unsubscribe(tags: Tags)

  function Apply(list: Tags, m: Message): Tags {
    match m
    case Confirm => list
    case Subscribe(tags) => AddTags(list, tags)
    case Unsubscribe(tags) => RemoveTags(list, tags)
  }

  function ApplyAll(list: Tags, ms: seq<Message>): Tags
    decreases |ms|
  {
    if ms == [] then list else ApplyAll(Apply(list, ms[0]), ms[1..])
  }

  // ----- What the lists mean as sets

  lemma AddTagMeaning(list: Tags, tag: string)
    requires Distinct(list)
    ensures Distinct(AddTag(list, tag)) && forall x :: x in AddTag(list, tag) <==> x in list || x == tag
  {
  }

  lemma RemoveTagMeaning(list: Tags, tag: string)
    requires Distinct(list)
    ensures Distinct(RemoveTag(list, tag)) && forall x :: x in RemoveTag(list, tag) <==> x in list && x != tag
  {
    var i := Find(list, tag);
    if i < |list| {
      DropAt(list, i);
    }
  }

  lemma DropAt(list: Tags, i: nat)
    requires Distinct(list) && i < |list|
    ensures var rest := list[..i] + list[i + 1..];
            Distinct(rest) && forall x :: x in rest <==> x in list && x != list[i]
  {
    var rest := list[..i] + list[i + 1..];
    assert forall k :: 0 <= k < |rest| ==> rest[k] == list[if k < i then k else k + 1];
    forall x | x in list && x != list[i] ensures x in rest {
      var k :| 0 <= k < |list| && list[k] == x;
      assert rest[if k < i then k else k - 1] == x;
    }
  }

  lemma {:induction false} AddTagsMeaning(list: Tags, tags: Tags)
    requires Distinct(list)
    ensures Distinct(AddTags(list, tags)) && forall x :: x in AddTags(list, tags) <==> x in list || x in tags
    decreases |tags|
  {
    if tags != [] {
      var tag, more := tags[0], tags[1..];
      AddTagMeaning(list, tag);
      AddTagsMeaning(AddTag(list, tag), more);
      assert forall x :: x in tags <==> x == tag || x in more by {
        assert tags == [tag] + more;
      }
    }
  }

  lemma {:induction false} RemoveTagsMeaning(list: Tags, tags: Tags)
    requires Distinct(list)
    ensures Distinct(RemoveTags(list, tags))
    ensures forall x :: x in RemoveTags(list, tags) <==> x in list && x !in tags
    decreases |tags|
  {
    if tags != [] {
      var tag, more := tags[0], tags[1..];
      RemoveTagMeaning(list, tag);
      RemoveTagsMeaning(RemoveTag(list, tag), more);
      assert forall x :: x in tags <==> x == tag || x in more by {
        assert tags == [tag] + more;
      }
    }
  }

  /** What a message says of one tag: in, out, or nothing. */
  function Verdict(m: Message, x: string): Option<bool> {
    match m
    case Confirm => None
    case Subscribe(tags) => if x in tags then Some(true) else None
    case Unsubscribe(tags) => if x in tags then Some(false) else None
  }

  /** What the last message that mentions a tag says of it. */
  function LastVerdict(ms: seq<Message>, x: string): Option<bool> {
    if ms == [] then None
    else
      var v := Verdict(ms[|ms| - 1], x);
      if v.Some? then v else LastVerdict(ms[..|ms| - 1], x)
  }

  predicate Member(v: Option<bool>, before: bool) { if v.Some? then v.value else before }

  lemma ApplyMeaning(list: Tags, m: Message)
    requires Distinct(list)
    ensures Distinct(Apply(list, m))
    ensures forall x :: x in Apply(list, m) <==> Member(Verdict(m, x), x in list)
  {
    match m
    case Confirm =>
    case Subscribe(tags) => AddTagsMeaning(list, tags);
    case Unsubscribe(tags) => RemoveTagsMeaning(list, tags);
  }

  lemma {:induction false} ApplyAllSnoc(list: Tags, ms: seq<Message>, m: Message)
    ensures ApplyAll(list, ms + [m]) == Apply(ApplyAll(list, ms), m)
    decreases |ms|
  {
    if ms == [] {
      assert ms + [m] == [m];
    } else {
      assert (ms + [m])[1..] == ms[1..] + [m];
      ApplyAllSnoc(Apply(list, ms[0]), ms[1..], m);
    }
  }

  lemma {:induction false} ApplyAllMeaning(list: Tags, ms: seq<Message>)
    requires Distinct(list)
    ensures Distinct(ApplyAll(list, ms))
    ensures forall x :: x in ApplyAll(list, ms) <==> Member(LastVerdict(ms, x), x in list)
    decreases |ms|
  {
    if ms != [] {
      var front, last := ms[..|ms| - 1], ms[|ms| - 1];
      assert ms == front + [last];
      ApplyAllMeaning(list, front);
      ApplyAllSnoc(list, front, last);
      ApplyMeaning(ApplyAll(list, front), last);
    }
  }

  // ----- The two sides and what is between them

  /** The API thread: outside, its list changed, or past its look at the handshake. */
  datatype Api = Outside | Changed(m: Message) | Passed(m: Message)

  datatype Loop = Rest | AtTags

  datatype Server = Away | Serving(tags: Tags) | Gone

  /** `prompt` says that what the API queued is dispatched before the next connect;
      `up` and `settings` are what travels each way on the current connection. */
  datatype State = State(
    prompt: bool, tags: Tags, connected: bool, done: bool, loop: Loop, api: Api, pending: seq<Message>,
    up: seq<Message>, settings: bool, server: Server)

  function Start(prompt: bool, initial: Tags): State {
    State(prompt, initial, false, false, Rest, Outside, [], [], false, Away)
  }

  datatype Event =
    | Call(m: Message)
    | Look
    | Queue
    | Dispatch
    | Connect
    | Accept
    | Settings
    | SendTags
    | Arrive
    | Disconnect
    | ServerDrop

  predicate Callable(m: Message) { !m.Confirm? && m.tags != [] }

  function Handshake(s: State): State {
    s.(settings := false, up := s.up + [Confirm], done := true, loop := AtTags)
  }

  function Greet(s: State): State {
    if s.tags == [] then s.(loop := Rest) else s.(loop := Rest, up := s.up + [Subscribe(s.tags)])
  }

  function Step(s: State, e: Event): State {
    match e
    case Call(m) => if s.api.Outside? && Callable(m) then s.(tags := Apply(s.tags, m), api := Changed(m)) else s
    case Look => if s.api.Changed? then s.(api := if s.done then Passed(s.api.m) else Outside) else s
    case Queue => if s.api.Passed? then s.(pending := s.pending + [s.api.m], api := Outside) else s
    case Dispatch =>
      if s.loop != Rest then s
      else if s.connected then s.(up := s.up + s.pending, pending := [])
      else s.(pending := [])
    case Connect =>
      if s.loop != Rest || s.connected || (s.prompt && (s.pending != [] || s.api.Passed?)) then s
      else s.(connected := true, up := [], settings := false, server := Away)
    case Accept => if s.connected && s.server.Away? then s.(server := Serving([]), settings := true) else s
    case Settings => if s.loop == Rest && s.connected && s.settings then Handshake(s) else s
    case SendTags => if s.loop == AtTags then Greet(s) else s
    case Arrive =>
      if s.server.Serving? && s.up != [] then s.(server := Serving(Apply(s.server.tags, s.up[0])), up := s.up[1..])
      else s
    case Disconnect => if s.loop == Rest && s.connected then s.(connected := false, done := false) else s
    case ServerDrop => if s.server.Serving? then s.(server := Gone) else s
  }

  function Run(s: State, es: seq<Event>): State
    decreases |es|
  {
    if es == [] then s else Run(Step(s, es[0]), es[1..])
  }

  // ----- What every run keeps

  /** A call whose message is not queued yet. */
  function Calling(a: Api): seq<Message> { if a.Outside? then [] else [a.m] }

  /** What is yet to reach the link. */
  function Coming(s: State): seq<Message> { s.pending + Calling(s.api) }

  /** Applying the messages again would change nothing. */
  ghost predicate Settled(ms: seq<Message>, tags: Tags) {
    forall x :: Member(LastVerdict(ms, x), x in tags) <==> x in tags
  }

  /** After the messages the list will hold the same tags. */
  ghost predicate Reaches(list: Tags, ms: seq<Message>, tags: Tags) {
    forall x :: Member(LastVerdict(ms, x), x in list) <==> x in tags
  }

  /** Connected, and the handshake not answered yet: nothing has gone up. */
  predicate Fresh(s: State) {
    s.up == [] && s.pending == [] && !s.api.Passed? && (s.server.Serving? ==> s.server.tags == [])
  }

  /** The handshake is answered and the list is about to go up. */
  ghost predicate Greeting(s: State) {
    && !s.settings && Settled(Coming(s), s.tags)
    && (forall m :: m in s.up ==> m.Confirm?) && (s.server.Serving? ==> s.server.tags == [])
  }

  ghost predicate Inv(s: State) {
    && s.prompt && Distinct(s.tags) && (s.server.Serving? ==> Distinct(s.server.tags))
    && (s.loop == AtTags ==> s.done) && (s.done ==> s.connected && !s.server.Away?)
    && (s.api.Changed? ==> Settled([s.api.m], s.tags))
    && (s.connected && !s.done ==> Fresh(s))
    && (s.connected && s.server.Away? ==> !s.settings)
    && (s.done ==> !s.settings)
    && (s.loop == AtTags ==> Greeting(s))
    && (s.done && s.loop == Rest && s.server.Serving? ==> Reaches(s.server.tags, s.up + Coming(s), s.tags))
  }

  lemma {:induction false} LastVerdictConcat(a: seq<Message>, b: seq<Message>, x: string)
    ensures LastVerdict(a + b, x) == if LastVerdict(b, x).Some? then LastVerdict(b, x) else LastVerdict(a, x)
    decreases |b|
  {
    if b == [] {
      assert a + b == a;
    } else {
      assert (a + b)[..|a + b| - 1] == a + b[..|b| - 1];
      LastVerdictConcat(a, b[..|b| - 1], x);
    }
  }

  lemma LastVerdictOne(m: Message, x: string)
    ensures LastVerdict([m], x) == Verdict(m, x)
  {
    assert [m][..0] == [];
  }

  lemma CallSettles(m: Message, tags: Tags)
    requires Distinct(tags)
    ensures Settled([m], Apply(tags, m))
  {
    ApplyMeaning(tags, m);
    forall x ensures LastVerdict([m], x) == Verdict(m, x) {
      LastVerdictOne(m, x);
    }
  }

  lemma CallStaysSettled(ms: seq<Message>, m: Message, tags: Tags)
    requires Distinct(tags) && Settled(ms, tags)
    ensures Settled(ms + [m], Apply(tags, m))
  {
    ApplyMeaning(tags, m);
    forall x ensures Member(LastVerdict(ms + [m], x), x in Apply(tags, m)) <==> x in Apply(tags, m) {
      LastVerdictConcat(ms, [m], x);
      LastVerdictOne(m, x);
      assert Member(LastVerdict(ms, x), x in tags) <==> x in tags;
    }
  }

  lemma CallReaches(list: Tags, ms: seq<Message>, m: Message, tags: Tags)
    requires Distinct(tags) && Reaches(list, ms, tags)
    ensures Reaches(list, ms + [m], Apply(tags, m))
  {
    ApplyMeaning(tags, m);
    forall x ensures Member(LastVerdict(ms + [m], x), x in list) <==> x in Apply(tags, m) {
      LastVerdictConcat(ms, [m], x);
      LastVerdictOne(m, x);
      assert Member(LastVerdict(ms, x), x in list) <==> x in tags;
    }
  }

  lemma ArriveReaches(list: Tags, m: Message, rest: seq<Message>, tags: Tags)
    requires Distinct(list) && Reaches(list, [m] + rest, tags)
    ensures Reaches(Apply(list, m), rest, tags)
  {
    ApplyMeaning(list, m);
    forall x ensures Member(LastVerdict(rest, x), x in Apply(list, m)) <==> x in tags {
      LastVerdictConcat([m], rest, x);
      LastVerdictOne(m, x);
      assert Member(LastVerdict([m] + rest, x), x in list) <==> x in tags;
    }
  }

  lemma {:induction false} ConfirmsSayNothing(ms: seq<Message>, x: string)
    requires forall m :: m in ms ==> m.Confirm?
    ensures LastVerdict(ms, x) == None
    decreases |ms|
  {
    if ms != [] {
      ConfirmsSayNothing(ms[..|ms| - 1], x);
    }
  }

  /** The whole list goes up to an empty record, ahead of what is still coming. */
  lemma GreetReaches(up: seq<Message>, ms: seq<Message>, tags: Tags)
    requires (forall m :: m in up ==> m.Confirm?) && Settled(ms, tags)
    ensures Reaches([], (if tags == [] then up else up + [Subscribe(tags)]) + ms, tags)
  {
    var sent := if tags == [] then up else up + [Subscribe(tags)];
    forall x ensures Member(LastVerdict(sent + ms, x), x in []) <==> x in tags {
      LastVerdictConcat(sent, ms, x);
      ConfirmsSayNothing(up, x);
      LastVerdictConcat(up, [Subscribe(tags)], x);
      LastVerdictOne(Subscribe(tags), x);
      assert Member(LastVerdict(ms, x), x in tags) <==> x in tags;
    }
  }

  lemma CallInv(s: State, m: Message)
    requires Inv(s) && s.api.Outside? && Callable(m)
    ensures Inv(Step(s, Call(m)))
  {
    var t := Step(s, Call(m));
    ApplyMeaning(s.tags, m);
    CallSettles(m, s.tags);
    assert Coming(t) == Coming(s) + [m];
    if s.loop == AtTags {
      CallStaysSettled(Coming(s), m, s.tags);
    } else if s.done && s.server.Serving? {
      CallReaches(s.server.tags, s.up + Coming(s), m, s.tags);
      assert s.up + Coming(s) + [m] == t.up + Coming(t);
    }
  }

  lemma QueueInv(s: State)
    requires Inv(s)
    ensures Inv(Step(s, Look)) && Inv(Step(s, Queue))
  {
    if s.api.Passed? {
      assert Coming(Step(s, Queue)) == Coming(s);
    }
  }

  lemma DispatchInv(s: State)
    requires Inv(s)
    ensures Inv(Step(s, Dispatch))
  {
    var t := Step(s, Dispatch);
    if s.loop == Rest && s.connected {
      assert t.up + Coming(t) == s.up + Coming(s);
    }
  }

  lemma LinkInv(s: State, e: Event)
    requires Inv(s) && (e.Connect? || e.Accept? || e.Disconnect? || e.ServerDrop?)
    ensures Inv(Step(s, e))
  {
  }

  lemma SettingsInv(s: State)
    requires Inv(s)
    ensures Inv(Step(s, Settings))
  {
    if s.api.Changed? {
      assert [] + Calling(s.api) == [s.api.m];
    }
  }

  lemma SendTagsInv(s: State)
    requires Inv(s)
    ensures Inv(Step(s, SendTags))
  {
    if s.loop == AtTags {
      GreetReaches(s.up, Coming(s), s.tags);
    }
  }

  lemma ArriveInv(s: State)
    requires Inv(s)
    ensures Inv(Step(s, Arrive))
  {
    if s.server.Serving? && s.up != [] {
      var m, rest := s.up[0], s.up[1..];
      ApplyMeaning(s.server.tags, m);
      if s.done && s.loop == Rest {
        assert s.up + Coming(s) == [m] + (rest + Coming(s));
        ArriveReaches(s.server.tags, m, rest + Coming(s), s.tags);
      } else if s.loop == AtTags {
        assert m in s.up;
      }
    }
  }

  lemma StepInv(s: State, e: Event)
    requires Inv(s)
    ensures Inv(Step(s, e))
  {
    match e
    case Call(m) => if s.api.Outside? && Callable(m) { CallInv(s, m); }
    case Look => QueueInv(s);
    case Queue => QueueInv(s);
    case Dispatch => DispatchInv(s);
    case Settings => SettingsInv(s);
    case SendTags => SendTagsInv(s);
    case Arrive => ArriveInv(s);
    case _ => LinkInv(s, e);
  }

  lemma {:induction false} RunInv(s: State, es: seq<Event>)
    requires Inv(s)
    ensures Inv(Run(s, es))
    decreases |es|
  {
    if es != [] {
      StepInv(s, es[0]);
      RunInv(Step(s, es[0]), es[1..]);
    }
  }

  // ----- Main results

  /** The handshake is done and nothing is pending or under way. */
  predicate Quiet(s: State) {
    s.done && s.loop == Rest && s.api.Outside? && s.pending == [] && s.up == [] && s.server.Serving?
  }

  predicate Agree(s: State)
    requires s.server.Serving?
  {
    (forall x :: x in s.tags ==> x in s.server.tags) && (forall x :: x in s.server.tags ==> x in s.tags)
  }

  /** Whatever calls, disconnects and reconnects have happened and however they were
      interleaved: once all is quiet the server keeps exactly the client's tags. */
  lemma Agreement(initial: Tags, es: seq<Event>)
    requires Distinct(initial) && Quiet(Run(Start(true, initial), es))
    ensures Agree(Run(Start(true, initial), es))
  {
    var s := Run(Start(true, initial), es);
    RunInv(Start(true, initial), es);
    assert s.up + Coming(s) == [];
    assert forall x :: Member(LastVerdict([], x), x in s.server.tags) <==> x in s.tags;
  }

  // ----- What it rests on

  lemma {:induction false} RunSnoc(s: State, es: seq<Event>, e: Event)
    ensures Run(s, es + [e]) == Step(Run(s, es), e)
    decreases |es|
  {
    if es == [] {
      assert es + [e] == [e];
    } else {
      assert (es + [e])[1..] == es[1..] + [e];
      RunSnoc(Step(s, es[0]), es[1..], e);
    }
  }

  /** A run that reaches `at`, one event longer. */
  lemma Then(s: State, es: seq<Event>, at: State, e: Event) returns (longer: seq<Event>)
    requires Run(s, es) == at
    ensures Run(s, longer) == Step(at, e)
  {
    RunSnoc(s, es, e);
    longer := es + [e];
  }

  /** What goes up when the handshake is answered. */
  function Hello(tags: Tags): seq<Message> { [Confirm] + (if tags == [] then [] else [Subscribe(tags)]) }

  lemma HelloMeans(list: Tags, tags: Tags)
    ensures ApplyAll(list, Hello(tags)) == AddTags(list, tags)
  {
    var rest: seq<Message> := if tags == [] then [] else [Subscribe(tags)];
    assert Hello(tags)[1..] == rest;
    assert ApplyAll(list, Hello(tags)) == ApplyAll(Apply(list, Confirm), rest);
    if tags != [] {
      assert rest[1..] == [];
      assert ApplyAll(list, rest) == ApplyAll(Apply(list, rest[0]), []);
    }
  }

  /** A connection just made, through its handshake; what was written to it before stays first. */
  lemma Handshakes(s0: State, es: seq<Event>, at: State) returns (longer: seq<Event>)
    requires Run(s0, es) == at && at.connected && at.server.Away? && !at.settings && at.loop == Rest
    ensures Run(s0, longer) == at.(done := true, up := at.up + Hello(at.tags), server := Serving([]))
  {
    longer := Then(s0, es, at, Accept);
    var s := Step(at, Accept);
    longer := Then(s0, longer, s, Settings);
    s := Step(s, Settings);
    longer := Then(s0, longer, s, SendTags);
    assert at.up + [Confirm] + [Subscribe(at.tags)] == at.up + ([Confirm] + [Subscribe(at.tags)]);
    assert at.up + [Confirm] == at.up + ([Confirm] + []);
  }

  /** Everything written arrives. */
  lemma {:induction false} AllArrive(s0: State, es: seq<Event>, at: State) returns (longer: seq<Event>)
    requires Run(s0, es) == at && at.server.Serving?
    ensures Run(s0, longer) == at.(up := [], server := Serving(ApplyAll(at.server.tags, at.up)))
    decreases |at.up|
  {
    if at.up == [] {
      longer := es;
    } else {
      longer := Then(s0, es, at, Arrive);
      longer := AllArrive(s0, longer, Step(at, Arrive));
    }
  }

  /** A first connection, up to the arrival of all that the handshake sends. */
  lemma FirstConnection(prompt: bool, initial: Tags) returns (es: seq<Event>)
    ensures Run(Start(prompt, initial), es)
         == State(prompt, initial, true, true, Rest, Outside, [], [], false, Serving(AddTags([], initial)))
  {
    var s0 := Start(prompt, initial);
    es := Then(s0, [], s0, Connect);
    var s := Step(s0, Connect);
    es := Handshakes(s0, es, s);
    assert s.up + Hello(initial) == Hello(initial);
    es := AllArrive(s0, es, s.(done := true, up := Hello(initial), server := Serving([])));
    HelloMeans([], initial);
  }

  /** A call that sees the handshake done and is queued. */
  lemma QueuedCall(s0: State, es: seq<Event>, at: State, m: Message) returns (longer: seq<Event>)
    requires Run(s0, es) == at && Quiet(at) && Callable(m)
    ensures Run(s0, longer) == at.(tags := Apply(at.tags, m), pending := [m])
  {
    longer := Then(s0, es, at, Call(m));
    var s := Step(at, Call(m));
    longer := Then(s0, longer, s, Look);
    s := Step(s, Look);
    longer := Then(s0, longer, s, Queue);
  }

  /** One call on a quiet connection, up to the arrival of its message. */
  lemma OneCall(s0: State, es: seq<Event>, at: State, m: Message) returns (longer: seq<Event>)
    requires Run(s0, es) == at && Quiet(at) && at.connected && Callable(m)
    ensures Run(s0, longer) == at.(tags := Apply(at.tags, m), server := Serving(Apply(at.server.tags, m)))
  {
    longer := QueuedCall(s0, es, at, m);
    var s := at.(tags := Apply(at.tags, m), pending := [m]);
    longer := Then(s0, longer, s, Dispatch);
    longer := OneArrives(s0, longer, s.(up := [m], pending := []), m);
  }

  lemma OneArrives(s0: State, es: seq<Event>, at: State, m: Message) returns (longer: seq<Event>)
    requires Run(s0, es) == at && at.server.Serving? && at.up == [m]
    ensures Run(s0, longer) == at.(up := [], server := Serving(Apply(at.server.tags, m)))
  {
    longer := Then(s0, es, at, Arrive);
  }

  lemma SecondStays(list: Tags, i: nat, j: nat)
    requires i < j < |list| && list[i] == list[j]
    ensures list[i] in RemoveTags(list, [list[i]])
  {
    var x := list[i];
    var k := Find(list, x);
    var rest := list[..k] + list[k + 1..];
    assert rest[j - 1] == list[j];
    assert RemoveTags(list, [x]) == RemoveTags(rest, []);
  }

  lemma OnceGone(initial: Tags, x: string)
    ensures x !in RemoveTags(AddTags([], initial), [x])
  {
    AddTagsMeaning([], initial);
    RemoveTagsMeaning(AddTags([], initial), [x]);
  }

  /** A tag that the first list holds twice: after it is dropped the client still has it
      and the server does not. */
  lemma DuplicatesDisagree(prompt: bool, initial: Tags) returns (es: seq<Event>)
    requires !Distinct(initial)
    ensures var s := Run(Start(prompt, initial), es); Quiet(s) && !Agree(s)
  {
    var i, j :| 0 <= i < j < |initial| && initial[i] == initial[j];
    var x := initial[i];
    es := FirstConnection(prompt, initial);
    es := OneCall(Start(prompt, initial), es, Run(Start(prompt, initial), es), Unsubscribe([x]));
    OnceGone(initial, x);
    SecondStays(initial, i, j);
  }

  /** A call that finds no handshake: only the list changes. */
  lemma OfflineCall(s0: State, es: seq<Event>, at: State, m: Message) returns (longer: seq<Event>)
    requires Run(s0, es) == at && !at.done && at.api.Outside? && Callable(m)
    ensures Run(s0, longer) == at.(tags := Apply(at.tags, m))
  {
    longer := Then(s0, es, at, Call(m));
    longer := Then(s0, longer, Step(at, Call(m)), Look);
  }

  /** A reconnect on which what was left over goes up before the handshake is answered. */
  lemma LateReconnect(s0: State, es: seq<Event>, at: State, m: Message) returns (longer: seq<Event>)
    requires Run(s0, es) == at && !at.prompt && !at.connected && at.api.Outside? && at.loop == Rest
    requires at.pending == [m]
    ensures Run(s0, longer)
         == at.(connected := true, done := true, pending := [], up := [], settings := false,
                server := Serving(AddTags(Apply([], m), at.tags)))
  {
    longer := Then(s0, es, at, Connect);
    var s := Step(at, Connect);
    longer := Then(s0, longer, s, Dispatch);
    s := Step(s, Dispatch);
    assert s.up == [m] && s.connected;
    longer := Handshakes(s0, longer, s);
    var t := s.(done := true, up := [m] + Hello(s.tags), server := Serving([]));
    longer := AllArrive(s0, longer, t);
    assert t.up[1..] == Hello(s.tags);
    HelloMeans(Apply([], m), s.tags);
  }

  /** A subscription queued on one connection and first sent on the next outlives its
      undoing, whatever the tag and the first list. */
  lemma LateTaskDisagrees(initial: Tags, b: string) returns (es: seq<Event>)
    requires Distinct(initial)
    ensures var s := Run(Start(false, initial), es); Quiet(s) && !Agree(s)
  {
    var s0 := Start(false, initial);
    var sub, unsub := Subscribe([b]), Unsubscribe([b]);
    es := FirstConnection(false, initial);
    es := QueuedCall(s0, es, Run(s0, es), sub);
    es := Then(s0, es, Run(s0, es), Disconnect);
    es := OfflineCall(s0, es, Run(s0, es), unsub);
    var tags := Apply(Apply(initial, sub), unsub);
    AddTagsMeaning(initial, [b]);
    RemoveTagsMeaning(AddTags(initial, [b]), [b]);
    es := LateReconnect(s0, es, Run(s0, es), sub);
    AddTagsMeaning([], [b]);
    AddTagsMeaning(AddTags([], [b]), tags);
    assert b in Run(s0, es).server.tags && b !in Run(s0, es).tags;
  }

  /** Agreement at every quiet moment of every run holds for exactly the clients that
      dispatch what they queued before they reconnect, and whose first list has no
      repeats. */
  lemma AgreementIff(prompt: bool, initial: Tags)
    ensures (forall es :: Quiet(Run(Start(prompt, initial), es)) ==> Agree(Run(Start(prompt, initial), es)))
        <==> prompt && Distinct(initial)
  {
    if !Distinct(initial) {
      var es := DuplicatesDisagree(prompt, initial);
    } else if prompt {
      forall es | Quiet(Run(Start(prompt, initial), es)) ensures Agree(Run(Start(prompt, initial), es)) {
        Agreement(initial, es);
      }
    } else {
      var es := LateTaskDisagrees(initial, "");
    }
  }

  /** In this run nothing that was queued is left when a connection is made. */
  predicate Timely(s: State, es: seq<Event>)
    decreases |es|
  {
    es != [] ==>
      && (es[0].Connect? && s.loop == Rest && !s.connected ==> s.pending == [] && !s.api.Passed?)
      && Timely(Step(s, es[0]), es[1..])
  }

  lemma PromptApi(s: State, e: Event)
    requires e.Call? || e.Look? || e.Queue? || e.Dispatch?
    ensures Step(s.(prompt := true), e) == Step(s, e).(prompt := true)
  {
  }

  lemma PromptLink(s: State, e: Event)
    requires e.Accept? || e.Settings? || e.SendTags? || e.Arrive? || e.Disconnect? || e.ServerDrop?
    ensures Step(s.(prompt := true), e) == Step(s, e).(prompt := true)
  {
  }

  lemma PromptStep(s: State, e: Event)
    requires e.Connect? && s.loop == Rest && !s.connected ==> s.pending == [] && !s.api.Passed?
    ensures Step(s.(prompt := true), e) == Step(s, e).(prompt := true)
  {
    if e.Call? || e.Look? || e.Queue? || e.Dispatch? {
      PromptApi(s, e);
    } else if !e.Connect? {
      PromptLink(s, e);
    }
  }

  lemma {:induction false} TimelyIsPrompt(s: State, es: seq<Event>)
    requires Timely(s, es)
    ensures Run(s.(prompt := true), es) == Run(s, es).(prompt := true)
    decreases |es|
  {
    if es != [] {
      PromptStep(s, es[0]);
      TimelyIsPrompt(Step(s, es[0]), es[1..]);
    }
  }

  /** Of a client that may reconnect too early, every run in which it does not agrees. */
  lemma TimelyAgreement(prompt: bool, initial: Tags, es: seq<Event>)
    requires Distinct(initial) && Timely(Start(prompt, initial), es)
    ensures var s := Run(Start(prompt, initial), es); Quiet(s) ==> Agree(s)
  {
    TimelyIsPrompt(Start(prompt, initial), es);
    if Quiet(Run(Start(prompt, initial), es)) {
      Agreement(initial, es);
    }
  }

  // ----- As the two sides keep their lists

  class TagList {
    var tags: Tags

    constructor (initial: Tags)
      ensures tags == initial
    {
      tags := initial;
    }

    method AddOne(tag: string)
      modifies this
      ensures tags == AddTag(old(tags), tag)
    {
      var found := false;
      for j := 0 to |tags|
        invariant found <==> tag in tags[..j]
      {
        if tags[j] == tag {
          found := true;
          break;
        }
      }
      if !found {
        tags := tags + [tag];
      }
    }

    method EraseFirst(tag: string)
      modifies this
      ensures tags == RemoveTag(old(tags), tag)
    {
      var j := Find(tags, tag);
      if j < |tags| {
        tags := tags[..j] + tags[j + 1..];
      }
    }

    /** Each tag is appended unless it is there. */
    method Add(more: Tags)
      modifies this
      ensures tags == AddTags(old(tags), more)
    {
      for i := 0 to |more|
        invariant AddTags(tags, more[i..]) == AddTags(old(tags), more)
      {
        assert more[i..][1..] == more[i + 1..];
        AddOne(more[i]);
      }
    }

    /** Of each tag the first occurrence is erased. */
    method Remove(gone: Tags)
      modifies this
      ensures tags == RemoveTags(old(tags), gone)
    {
      for i := 0 to |gone|
        invariant RemoveTags(tags, gone[i..]) == RemoveTags(old(tags), gone)
      {
        assert gone[i..][1..] == gone[i + 1..];
        EraseFirst(gone[i]);
      }
    }

    /** The server's reading of one message. */
    method OnMessage(m: Message)
      modifies this
      ensures tags == Apply(old(tags), m)
    {
      match m {
        case Confirm =>
        case Subscribe(more) => Add(more);
        case Unsubscribe(gone) => Remove(gone);
      }
    }
  }

  /** The client's half: its list, its tasks and what it has written to the link. Where
      nothing comes between, a call is the three steps of the API thread. */
  class Client {
    const list: TagList
    var connected: bool
    var done: bool
    var pending: seq<Message>
    var up: seq<Message>

    constructor (initial: Tags)
      ensures fresh(list) && list.tags == initial && !connected && !done && pending == [] && up == []
    {
      list := new TagList(initial);
      connected, done, pending, up := false, false, [], [];
    }

    /** The client's fields are those of `s`, between callbacks. */
    ghost predicate Shows(s: State)
      reads this, list
    {
      && s.tags == list.tags && s.connected == connected && s.done == done && s.loop == Rest
      && s.api == Outside && s.pending == pending && s.up == up
    }

    /** A whole call of the API thread. */
    method Subscribe(tags: Tags, ghost s: State) returns (ok: bool)
      requires Shows(s)
      modifies this, list
      ensures ok <==> tags != []
      ensures Shows(if ok then Step(Step(Step(s, Call(Message.Subscribe(tags))), Look), Queue) else s)
    {
      if tags == [] {
        return false;
      }
      list.Add(tags);
      if done {
        pending := pending + [Message.Subscribe(tags)];
      }
      return true;
    }

    method Unsubscribe(tags: Tags, ghost s: State) returns (ok: bool)
      requires Shows(s)
      modifies this, list
      ensures ok <==> tags != []
      ensures Shows(if ok then Step(Step(Step(s, Call(Message.Unsubscribe(tags))), Look), Queue) else s)
    {
      if tags == [] {
        return false;
      }
      list.Remove(tags);
      if done {
        pending := pending + [Message.Unsubscribe(tags)];
      }
      return true;
    }

    /** The loop takes all tasks at once and writes them if there is a connection. */
    method OnDispatch(ghost s: State)
      requires Shows(s)
      modifies this
      ensures Shows(Step(s, Dispatch))
    {
      var tasks := pending;
      pending := [];
      if connected {
        up := up + tasks;
      }
    }

    /** The server's settings are confirmed and the whole list goes up. */
    method HandleSettings(ghost s: State)
      requires Shows(s) && s.settings && connected
      modifies this
      ensures Shows(Step(Step(s, Settings), SendTags))
    {
      up := up + [Confirm];
      done := true;
      if list.tags != [] {
        up := up + [Message.Subscribe(list.tags)];
      }
    }

    /** The connection is over. */
    method OnEvent(ghost s: State)
      requires Shows(s) && connected
      modifies this
      ensures Shows(Step(s, Disconnect))
    {
      connected, done := false, false;
    }
  }
}
