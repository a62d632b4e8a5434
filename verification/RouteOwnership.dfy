/** Which server face owns a path: claims, the tables made from them, registration and
    the check at opening; and the prefixes under which responses may be wrapped. */
module RouteOwnership {
  import opened Basics

  type Face = nat

  // ----- Claims and what is made of them

  datatype Claim<T> = Claim(face: Face, value: T)

  /** One claim a face: a new one takes the place of the old. */
  function Slot<T>(claims: seq<Claim<T>>, face: Face, value: T): seq<Claim<T>> {
    if claims == [] then [Claim(face, value)]
    else if claims[0].face == face then [Claim(face, value)] + claims[1..]
    else [claims[0]] + Slot(claims[1..], face, value)
  }

  /** The table of owners, entered claim by claim; what is there already stays. */
  function Rebuild<T(==)>(claims: seq<Claim<T>>, none: Option<T>): map<T, Face>
  {
    if claims == [] then map[]
    else
      var before := Rebuild(claims[..|claims| - 1], none);
      var last := claims[|claims| - 1];
      if Some(last.value) == none || last.value in before then before else before[last.value := last.face]
  }

  /** The first face to claim a value. */
  function FirstClaimant<T(==)>(claims: seq<Claim<T>>, value: T): Option<Face> {
    if claims == [] then None
    else if claims[0].value == value then Some(claims[0].face)
    else FirstClaimant(claims[1..], value)
  }

  lemma {:induction false} FirstClaimantSnoc<T>(claims: seq<Claim<T>>, last: Claim<T>, value: T)
    ensures FirstClaimant(claims + [last], value)
         == if FirstClaimant(claims, value).Some? then FirstClaimant(claims, value)
            else if last.value == value then Some(last.face) else None
    decreases |claims|
  {
    if claims == [] {
      assert claims + [last] == [last];
    } else {
      assert (claims + [last])[1..] == claims[1..] + [last];
      FirstClaimantSnoc(claims[1..], last, value);
    }
  }

  /** The table is the claims seen through their first claimants. */
  lemma {:induction false} RebuildIsFirst<T>(claims: seq<Claim<T>>, none: Option<T>, value: T)
    ensures value in Rebuild(claims, none) <==> Some(value) != none && FirstClaimant(claims, value).Some?
    ensures value in Rebuild(claims, none) ==> FirstClaimant(claims, value) == Some(Rebuild(claims, none)[value])
    decreases |claims|
  {
    if claims != [] {
      var front, last := claims[..|claims| - 1], claims[|claims| - 1];
      assert claims == front + [last];
      RebuildIsFirst(front, none, value);
      FirstClaimantSnoc(front, last, value);
    }
  }

  // ----- Lookup

  /** A path is the root itself or below it; the catch-all covers every path. */
  predicate UnderRoot(path: string, root: string) {
    if root == "" then false
    else if root == "/" then true
    else root <= path && (|path| == |root| || path[|root|] == '/')
  }

  /** The scan of the table, in the order the map gives its keys: the best so far, and
      how long it is. */
  function Scan(order: seq<string>, roots: map<string, Face>, path: string, best: Option<Face>, bestLen: nat)
    : Option<Face>
    requires forall r :: r in order ==> r in roots
    decreases |order|
  {
    if order == [] then best
    else
      var r := order[0];
      if r == "/" then Scan(order[1..], roots, path, if best.None? then Some(roots[r]) else best, bestLen)
      else if UnderRoot(path, r) && |r| > bestLen then Scan(order[1..], roots, path, Some(roots[r]), |r|)
      else Scan(order[1..], roots, path, best, bestLen)
  }

  /** The owner by trying the path's own prefixes, the longest first. */
  function Owner(roots: map<string, Face>, path: string, n: nat): Option<Face>
    requires n <= |path|
  {
    if n == 0 then (if "/" in roots then Some(roots["/"]) else None)
    else if path[..n] != "/" && path[..n] in roots && UnderRoot(path, path[..n]) then Some(roots[path[..n]])
    else Owner(roots, path, n - 1)
  }

  function LookupOwner(roots: map<string, Face>, path: string): Option<Face> { Owner(roots, path, |path|) }

  /** A root of its own, other than the catch-all, covers the path. */
  predicate Covers(path: string, r: string) { r != "/" && UnderRoot(path, r) }

  /** The best of the roots seen so far. */
  predicate Best(seen: seq<string>, roots: map<string, Face>, path: string, best: Option<Face>, bestLen: nat)
    requires forall r :: r in seen ==> r in roots
  {
    && (forall r :: r in seen && Covers(path, r) ==> |r| <= bestLen)
    && (if bestLen == 0 then best == if "/" in seen then Some(roots["/"]) else None
        else bestLen <= |path| && path[..bestLen] in seen && Covers(path, path[..bestLen])
             && best == Some(roots[path[..bestLen]]))
  }

  lemma CoveringIsPrefix(path: string, r: string)
    requires Covers(path, r)
    ensures 0 < |r| <= |path| && r == path[..|r|]
  {
  }

  lemma {:induction false} ScanFinds(order: seq<string>, seen: seq<string>, roots: map<string, Face>, path: string,
                                     best: Option<Face>, bestLen: nat) returns (len: nat)
    requires forall r :: r in seen + order ==> r in roots
    requires Best(seen, roots, path, best, bestLen)
    ensures Best(seen + order, roots, path, Scan(order, roots, path, best, bestLen), len)
    decreases |order|
  {
    if order == [] {
      assert seen + order == seen;
      len := bestLen;
    } else {
      var r, rest := order[0], order[1..];
      var more := seen + [r];
      assert more + rest == seen + order;
      assert forall x :: x in more <==> x in seen || x == r;
      if r == "/" {
        len := ScanFinds(rest, more, roots, path, if best.None? then Some(roots[r]) else best, bestLen);
      } else if UnderRoot(path, r) && |r| > bestLen {
        CoveringIsPrefix(path, r);
        len := ScanFinds(rest, more, roots, path, Some(roots[r]), |r|);
      } else {
        len := ScanFinds(rest, more, roots, path, best, bestLen);
      }
    }
  }

  lemma {:induction false} OwnerIsBest(seen: seq<string>, roots: map<string, Face>, path: string, best: Option<Face>,
                                       bestLen: nat, n: nat)
    requires (forall r :: r in seen <==> r in roots) && Best(seen, roots, path, best, bestLen)
    requires bestLen <= n <= |path|
    ensures Owner(roots, path, n) == best
    decreases n
  {
    if n > bestLen {
      assert path[..n] in roots && path[..n] != "/" && UnderRoot(path, path[..n]) ==> Covers(path, path[..n]);
      OwnerIsBest(seen, roots, path, best, bestLen, n - 1);
    }
  }

  /** In whatever order the table is read, the scan finds the face of the longest covering
      root, the catch-all only when there is no other. */
  lemma ScanIsLongest(order: seq<string>, roots: map<string, Face>, path: string)
    requires forall r :: r in order <==> r in roots
    ensures Scan(order, roots, path, None, 0) == LookupOwner(roots, path)
  {
    assert [] + order == order;
    var len := ScanFinds(order, [], roots, path, None, 0);
    OwnerIsBest(order, roots, path, Scan(order, roots, path, None, 0), len, |path|);
  }

  // ----- Declaring, registering, opening

  datatype Snapshot = Snapshot(roots: map<string, Face>, ports: map<nat, Face>)

  /** `snap` is what an opening fixed, also one that failed later on. */
  datatype State = State(
    roots: seq<Claim<string>>, ports: seq<Claim<nat>>, owners: map<string, Face>, portFace: map<nat, Face>,
    log: seq<Claim<string>>, snap: Option<Snapshot>, running: bool)

  function Start(): State { State([], [], map[], map[], [], None, false) }

  datatype Event =
    | SetRoot(face: Face, path: string)
    | Listen(face: Face, port: nat)
    | Register(face: Face, path: string)
    | Open(portsFree: bool, started: bool)

  const NO_ROOT: Option<string> := Some("")

  predicate Unique<T(==)>(claims: seq<Claim<T>>, none: Option<T>) {
    forall i, j :: 0 <= i < j < |claims| && claims[i].value == claims[j].value ==> Some(claims[i].value) == none
  }

  /** The check at opening: no root and no port claimed twice, and every route still with
      the face that registered it. */
  predicate Consistent(s: State) {
    && Unique(s.roots, NO_ROOT) && Unique(s.ports, None)
    && (forall i :: 0 <= i < |s.log| ==> LookupOwner(s.owners, s.log[i].value) == Some(s.log[i].face))
  }

  /** What a registration asks: the snapshot once there is one. */
  function OwnerNow(s: State, path: string): Option<Face> {
    LookupOwner(if s.snap.Some? then s.snap.value.roots else s.owners, path)
  }

  function Step(s: State, e: Event): State {
    if s.running then s
    else
      match e
      case SetRoot(face, path) =>
        var claims := Slot(s.roots, face, path);
        s.(roots := claims, owners := Rebuild(claims, NO_ROOT))
      case Listen(face, port) =>
        var claims := Slot(s.ports, face, port);
        s.(ports := claims, portFace := Rebuild(claims, None))
      case Register(face, path) =>
        if path != "" && OwnerNow(s, path) == Some(face) then s.(log := s.log + [Claim(face, path)]) else s
      case Open(portsFree, started) =>
        if Consistent(s) then s.(snap := Some(Snapshot(s.owners, s.portFace)), running := portsFree && started) else s
  }

  function Run(s: State, es: seq<Event>): State
    decreases |es|
  {
    if es == [] then s else Run(Step(s, es[0]), es[1..])
  }

  predicate OneEach<T>(claims: seq<Claim<T>>) {
    forall i, j :: 0 <= i < j < |claims| ==> claims[i].face != claims[j].face
  }

  predicate Inv(s: State) {
    && OneEach(s.roots) && OneEach(s.ports)
    && s.owners == Rebuild(s.roots, NO_ROOT) && s.portFace == Rebuild(s.ports, None)
    && (s.running ==> s.snap == Some(Snapshot(s.owners, s.portFace)) && Consistent(s))
  }

  lemma {:induction false} SlotOneEach<T>(claims: seq<Claim<T>>, face: Face, value: T)
    requires OneEach(claims)
    ensures OneEach(Slot(claims, face, value))
    ensures forall c :: c in Slot(claims, face, value) ==> c.face == face || c in claims
    ensures Claim(face, value) in Slot(claims, face, value)
    decreases |claims|
  {
    if claims != [] && claims[0].face != face {
      var rest := claims[1..];
      SlotOneEach(rest, face, value);
      assert forall c :: c in rest ==> exists k :: 0 < k < |claims| && claims[k] == c;
      var t := Slot(rest, face, value);
      forall j | 0 <= j < |t| ensures t[j].face != claims[0].face {
        assert t[j] in t;
      }
    }
  }

  lemma StepInv(s: State, e: Event)
    requires Inv(s)
    ensures Inv(Step(s, e))
  {
    match e
    case SetRoot(face, path) => SlotOneEach(s.roots, face, path);
    case Listen(face, port) => SlotOneEach(s.ports, face, port);
    case _ =>
  }

  lemma {:induction false} RunInv(s: State, es: seq<Event>)
    requires Inv(s)
    ensures Inv(Run(s, es))
    decreases |es|
  {
    if es != [] {
      StepInv(s, es[0]);
      RunInv(Step(s, es[0]), es[1..]);
    }
  }

  /** No two claims clash exactly when every face has what it claims. */
  lemma UniqueIffEachOwns<T>(claims: seq<Claim<T>>, none: Option<T>)
    requires OneEach(claims)
    ensures Unique(claims, none)
        <==> (forall i :: 0 <= i < |claims| && Some(claims[i].value) != none ==>
                claims[i].value in Rebuild(claims, none) && Rebuild(claims, none)[claims[i].value] == claims[i].face)
  {
    forall i | 0 <= i < |claims| && Some(claims[i].value) != none
      ensures claims[i].value in Rebuild(claims, none)
      ensures Unique(claims, none) ==> Rebuild(claims, none)[claims[i].value] == claims[i].face
      ensures FirstClaimant(claims, claims[i].value) == Some(Rebuild(claims, none)[claims[i].value])
    {
      RebuildIsFirst(claims, none, claims[i].value);
      var k := FirstIndex(claims, i);
    }
  }

  lemma {:induction false} FirstIndex<T>(claims: seq<Claim<T>>, i: nat) returns (k: nat)
    requires i < |claims|
    ensures k <= i && claims[k].value == claims[i].value
    ensures FirstClaimant(claims, claims[i].value) == Some(claims[k].face)
    decreases i
  {
    if claims[0].value == claims[i].value {
      k := 0;
    } else {
      var j := FirstIndex(claims[1..], i - 1);
      k := j + 1;
    }
  }

  // ----- Main results

  /** After any declarations the tables are the claims seen through their first claimants;
      and once it is open, every face has the root and the port it claims, and the
      snapshot gives every registered route to the face that registered it. */
  lemma TablesAgree(es: seq<Event>)
    ensures var s := Run(Start(), es);
            && (forall p :: p in s.owners <==> p != "" && FirstClaimant(s.roots, p).Some?)
            && (forall p :: p in s.owners ==> FirstClaimant(s.roots, p) == Some(s.owners[p]))
            && (forall p :: p in s.portFace <==> FirstClaimant(s.ports, p).Some?)
            && (forall p :: p in s.portFace ==> FirstClaimant(s.ports, p) == Some(s.portFace[p]))
            && (s.running ==> s.snap.Some? && OpenedRight(s, s.snap.value))
  {
    var s := Run(Start(), es);
    RunInv(Start(), es);
    forall p: string ensures p in s.owners <==> p != "" && FirstClaimant(s.roots, p).Some?
      ensures p in s.owners ==> FirstClaimant(s.roots, p) == Some(s.owners[p])
    {
      RebuildIsFirst(s.roots, NO_ROOT, p);
    }
    forall p: nat ensures p in s.portFace <==> FirstClaimant(s.ports, p).Some?
      ensures p in s.portFace ==> FirstClaimant(s.ports, p) == Some(s.portFace[p])
    {
      RebuildIsFirst(s.ports, None, p);
    }
    UniqueIffEachOwns(s.roots, NO_ROOT);
    UniqueIffEachOwns(s.ports, None);
  }

  predicate OpenedRight(s: State, snap: Snapshot) {
    && (forall i :: 0 <= i < |s.roots| && s.roots[i].value != "" ==>
          s.roots[i].value in snap.roots && snap.roots[s.roots[i].value] == s.roots[i].face)
    && (forall i :: 0 <= i < |s.ports| ==>
          s.ports[i].value in snap.ports && snap.ports[s.ports[i].value] == s.ports[i].face)
    && (forall i :: 0 <= i < |s.log| ==> LookupOwner(snap.roots, s.log[i].value) == Some(s.log[i].face))
  }

  lemma OneRoot(face: Face, path: string)
    requires path != "" && path != "/"
    ensures Rebuild([Claim(face, path)], NO_ROOT) == map[path := face]
    ensures LookupOwner(map[path := face], path) == Some(face)
  {
    var claims := [Claim(face, path)];
    assert claims[..0] == [];
    assert Rebuild(claims[..0], NO_ROOT) == map[];
    assert path[..|path|] == path;
  }

  lemma {:induction false} NotBelow(face: Face, root: string, path: string, n: nat)
    requires n <= |path| && root != "/" && !UnderRoot(path, root)
    ensures Owner(map[root := face], path, n) == None
    decreases n
  {
    if n > 0 {
      NotBelow(face, root, path, n - 1);
    }
  }

  /** After an opening that failed for a port, a face that takes another root cannot
      register there: the snapshot of the failed opening is still asked. */
  lemma StaleSnapshotRefuses(face: Face, was: string, path: string)
    requires was != "" && was != "/" && path != "" && path != "/" && !UnderRoot(path, was)
    ensures var s := Step(Step(Step(Start(), SetRoot(face, was)), Open(false, false)), SetRoot(face, path));
            && !s.running && LookupOwner(s.owners, path) == Some(face)
            && Step(s, Register(face, path)).log == []
  {
    var s1 := Step(Start(), SetRoot(face, was));
    assert s1.roots == [Claim(face, was)];
    OneRoot(face, was);
    var s2 := Step(s1, Open(false, false));
    assert Consistent(s1) && s2.snap == Some(Snapshot(map[was := face], map[]));
    var s3 := Step(s2, SetRoot(face, path));
    assert s3.roots == [Claim(face, path)];
    OneRoot(face, path);
    NotBelow(face, was, path, |path|);
  }

  // ----- Wrapping by prefix

  datatype Rule = Rule(prefix: string, option: nat)

  /** A declaration takes the place of an older one of the same prefix. */
  function Declare(rules: seq<Rule>, rule: Rule): seq<Rule> {
    if rules == [] then [rule]
    else if rules[0].prefix == rule.prefix then [rule] + rules[1..]
    else [rules[0]] + Declare(rules[1..], rule)
  }

  predicate PrefixMatch(path: string, prefix: string) {
    && prefix != "" && prefix <= path
    && (|path| == |prefix| || prefix[|prefix| - 1] == '/' || path[|prefix|] == '/')
  }

  function FirstMatch(rules: seq<Rule>, path: string): Option<nat> {
    if rules == [] then None
    else if PrefixMatch(path, rules[0].prefix) then Some(rules[0].option)
    else FirstMatch(rules[1..], path)
  }

  predicate OneRuleEach(rules: seq<Rule>) {
    forall i, j :: 0 <= i < j < |rules| ==> rules[i].prefix != rules[j].prefix
  }

  predicate LongestFirst(rules: seq<Rule>) {
    forall i, j :: 0 <= i < j < |rules| ==> |rules[i].prefix| >= |rules[j].prefix|
  }

  /** The rule of a path by trying the path's own prefixes, the longest first. */
  function RuleFor(rules: seq<Rule>, path: string, n: nat): Option<nat>
    requires n <= |path|
  {
    if n == 0 then None
    else
      var k := Position(rules, path[..n]);
      if k < |rules| && PrefixMatch(path, path[..n]) then Some(rules[k].option) else RuleFor(rules, path, n - 1)
  }

  function Position(rules: seq<Rule>, prefix: string): (k: nat)
    ensures k <= |rules| && (k < |rules| ==> rules[k].prefix == prefix)
    ensures forall j :: 0 <= j < k ==> rules[j].prefix != prefix
  {
    if rules == [] then 0 else if rules[0].prefix == prefix then 0 else 1 + Position(rules[1..], prefix)
  }

  lemma {:induction false} FirstMatchAt(rules: seq<Rule>, path: string) returns (k: nat)
    ensures k <= |rules| && forall j :: 0 <= j < k ==> !PrefixMatch(path, rules[j].prefix)
    ensures if k == |rules| then FirstMatch(rules, path) == None
            else PrefixMatch(path, rules[k].prefix) && FirstMatch(rules, path) == Some(rules[k].option)
    decreases |rules|
  {
    if rules == [] || PrefixMatch(path, rules[0].prefix) {
      k := 0;
    } else {
      var j := FirstMatchAt(rules[1..], path);
      k := j + 1;
    }
  }

  /** The rules are a rearrangement of those declared. */
  predicate SameRules(a: seq<Rule>, b: seq<Rule>) { multiset(a) == multiset(b) }

  lemma {:induction false} RuleForIs(rules: seq<Rule>, path: string, r: Rule, n: nat)
    requires OneRuleEach(rules) && r in rules && PrefixMatch(path, r.prefix) && |r.prefix| <= n <= |path|
    requires forall x :: x in rules && PrefixMatch(path, x.prefix) ==> |x.prefix| <= |r.prefix|
    ensures RuleFor(rules, path, n) == Some(r.option)
    decreases n
  {
    var k := Position(rules, path[..n]);
    var i :| 0 <= i < |rules| && rules[i] == r;
    if n > |r.prefix| {
      if k < |rules| {
        assert rules[k] in rules;
      }
      RuleForIs(rules, path, r, n - 1);
    } else {
      assert path[..n] == r.prefix;
      assert k == i;
    }
  }

  lemma {:induction false} NoRuleFor(rules: seq<Rule>, path: string, n: nat)
    requires n <= |path| && forall x :: x in rules ==> !PrefixMatch(path, x.prefix)
    ensures RuleFor(rules, path, n) == None
    decreases n
  {
    if n > 0 {
      var k := Position(rules, path[..n]);
      if k < |rules| {
        assert rules[k] in rules;
      }
      NoRuleFor(rules, path, n - 1);
    }
  }

  /** However an unstable sort by falling length leaves rules of equal length, the first
      that matches is that of the longest matching prefix. */
  lemma FirstMatchIsLongest(declared: seq<Rule>, sorted: seq<Rule>, path: string)
    requires OneRuleEach(declared) && SameRules(declared, sorted) && LongestFirst(sorted)
    ensures FirstMatch(sorted, path) == RuleFor(declared, path, |path|)
  {
    var k := FirstMatchAt(sorted, path);
    assert forall r :: r in declared <==> r in multiset(declared);
    assert forall r :: r in sorted <==> r in multiset(sorted);
    if k == |sorted| {
      NoRuleFor(declared, path, |path|);
    } else {
      var r := sorted[k];
      assert r in sorted;
      forall x | x in declared && PrefixMatch(path, x.prefix) ensures |x.prefix| <= |r.prefix| {
        assert x in sorted;
        var j :| 0 <= j < |sorted| && sorted[j] == x;
        assert j >= k;
      }
      RuleForIs(declared, path, r, |path|);
    }
  }

  /** Declaring keeps one rule a prefix, the last declared. */
  lemma {:induction false} DeclareMeaning(rules: seq<Rule>, rule: Rule)
    requires OneRuleEach(rules)
    ensures OneRuleEach(Declare(rules, rule))
    ensures forall r :: r in Declare(rules, rule) <==> r == rule || (r in rules && r.prefix != rule.prefix)
    decreases |rules|
  {
    if rules != [] {
      OthersDiffer(rules);
      if rules[0].prefix != rule.prefix {
        DeclareMeaning(rules[1..], rule);
        RuleInFront(rules[0], Declare(rules[1..], rule));
      }
    }
  }

  lemma OthersDiffer(rules: seq<Rule>)
    requires OneRuleEach(rules) && rules != []
    ensures OneRuleEach(rules[1..]) && forall r :: r in rules[1..] ==> r.prefix != rules[0].prefix
    ensures forall r :: r in rules <==> r == rules[0] || r in rules[1..]
  {
    assert rules == [rules[0]] + rules[1..];
    forall r | r in rules[1..] ensures r.prefix != rules[0].prefix {
      var k :| 0 <= k < |rules[1..]| && rules[1..][k] == r;
      assert rules[k + 1] == r;
    }
  }

  lemma RuleInFront(first: Rule, rest: seq<Rule>)
    requires OneRuleEach(rest) && forall r :: r in rest ==> r.prefix != first.prefix
    ensures OneRuleEach([first] + rest)
  {
    forall j | 0 <= j < |rest| ensures rest[j].prefix != first.prefix {
      assert rest[j] in rest;
    }
  }
}
