/**
 * SCIM group updates (lib/scim-group-update.ts; PATCH is section 3.5.2 of
 * RFC 7644): a request of attributes and ordered operations, applied to the
 * group's member list or rejected as a whole.
 */
module ScimGroupUpdate {
  import opened Wrappers
  import opened Distinctness

  const MAX_MEMBERS := 10_000

  /** A decoded JSON value; Undefined is a missing key, Other any null, number or boolean. */
  datatype Value = Undefined | Other | Str(s: string) | Arr(items: seq<Value>) | Obj(fields: map<string, Value>)

  function Field(v: Value, name: string): Value
    requires v.Obj?
  {
    if name in v.fields then v.fields[name] else Undefined
  }

  // ===== the schemas ==========================================================

  predicate IsHex(c: char) { '0' <= c <= '9' || 'a' <= c <= 'f' || 'A' <= c <= 'F' }

  predicate IsDatabaseId(s: string) {
    && |s| == 36
    && (forall i | 0 <= i < 36 :: if i == 8 || i == 13 || i == 18 || i == 23 then s[i] == '-' else IsHex(s[i]))
    && '1' <= s[14] <= '8'
    && LowerChar(s[19]) in "89ab"
  }

  function Trim(s: string): string
    decreases |s|
  {
    if |s| > 0 && IsSpace(s[0]) then Trim(s[1..])
    else if |s| > 0 && IsSpace(s[|s| - 1]) then Trim(s[..|s| - 1])
    else s
  }

  function LowerChar(c: char): char { if 'A' <= c <= 'Z' then c - 'A' + 'a' else c }

  function Lower(s: string): string { seq(|s|, i requires 0 <= i < |s| => LowerChar(s[i])) }

  function DisplayName(v: Value): Option<string> {
    if v.Str? && 1 <= |Trim(v.s)| <= 255 then Some(Trim(v.s)) else None
  }

  predicate IsMember(v: Value) { v.Obj? && Field(v, "value").Str? && IsDatabaseId(Field(v, "value").s) }

  function MemberId(v: Value): string { if IsMember(v) then Field(v, "value").s else "" }

  function MemberIds(items: seq<Value>): seq<string> { seq(|items|, i requires 0 <= i < |items| => MemberId(items[i])) }

  function Members(v: Value): Option<seq<string>> {
    if v.Arr? && |v.items| <= MAX_MEMBERS && (forall x <- v.items :: IsMember(x)) then Some(MemberIds(v.items)) else None
  }

  datatype Attributes = Attributes(displayName: Option<string>, members: Option<seq<string>>)

  /** Both attributes may be missing, neither may be malformed. */
  function ParseAttributes(v: Value): Option<Attributes> {
    if !v.Obj? then None
    else
      var name, members := Field(v, "displayName"), Field(v, "members");
      if (name != Undefined && DisplayName(name).None?) || (members != Undefined && Members(members).None?) then None
      else Some(Attributes(DisplayName(name), Members(members)))
  }

  datatype Op = Add | Remove | Replace

  datatype Operation = Operation(op: Op, path: Option<string>, value: Value)

  function ParseOp(v: Value): Option<Op> {
    if !v.Str? then None
    else if Lower(v.s) == "add" then Some(Add)
    else if Lower(v.s) == "remove" then Some(Remove)
    else if Lower(v.s) == "replace" then Some(Replace)
    else None
  }

  function ParseOperation(v: Value): Option<Operation> {
    if !v.Obj? || ParseOp(Field(v, "op")).None? then None
    else
      var path := Field(v, "path");
      if path == Undefined then Some(Operation(ParseOp(Field(v, "op")).value, None, Field(v, "value")))
      else if path.Str? && |path.s| <= 256 then Some(Operation(ParseOp(Field(v, "op")).value, Some(path.s), Field(v, "value")))
      else None
  }

  function ParseOperations(items: seq<Value>): Option<seq<Operation>> {
    if |items| == 0 then Some([])
    else
      var front, last := ParseOperations(items[..|items| - 1]), ParseOperation(items[|items| - 1]);
      if front.None? || last.None? then None else Some(front.value + [last.value])
  }

  datatype Request = Request(attributes: Attributes, operations: seq<Operation>)

  function ParseRequest(raw: Value): Option<Request> {
    if ParseAttributes(raw).None? then None
    else
      var operations := Field(raw, "Operations");
      if operations == Undefined then Some(Request(ParseAttributes(raw).value, []))
      else if operations.Arr? && 1 <= |operations.items| <= 100 && ParseOperations(operations.items).Some?
      then Some(Request(ParseAttributes(raw).value, ParseOperations(operations.items).value))
      else None
  }

  // ----- the filtered path members[value eq "..."] ----------------------------

  function SkipSpace(s: string): string { if |s| > 0 && IsSpace(s[0]) then SkipSpace(s[1..]) else s }

  predicate StartsWith(s: string, prefix: string) { prefix <= Lower(s) }

  /** At least one space, then `word` in any case; what follows it. */
  function AfterSpacedWord(s: string, word: string): Option<string> {
    if |s| > 0 && IsSpace(s[0]) && StartsWith(SkipSpace(s), word) && |word| <= |SkipSpace(s)| then Some(SkipSpace(s)[|word|..]) else None
  }

  /** What stands before the closing `"]`, which must end the path. */
  function QuotedId(rest: string): Option<string> {
    if |rest| < 3 || rest[|rest| - 2..] != "\"]" || '\"' in rest[..|rest| - 2] then None else Some(rest[..|rest| - 2])
  }

  const FILTER_HEAD := "members[value"

  function FilteredId(path: string): Option<string> {
    if !StartsWith(path, FILTER_HEAD) || |path| < |FILTER_HEAD| then None
    else
      var afterEq := AfterSpacedWord(path[|FILTER_HEAD|..], "eq");
      var rest := if afterEq.None? then None else AfterSpacedWord(afterEq.value, "\"");
      if rest.None? then None else QuotedId(rest.value)
  }

  ghost predicate Spaces(s: string) { |s| > 0 && forall c <- s :: IsSpace(c) }

  lemma {:induction false} SkipSpaceSplits(s: string)
    ensures var n := |s| - |SkipSpace(s)|;
            && n >= 0 && SkipSpace(s) == s[n..] && (forall c <- s[..n] :: IsSpace(c))
            && (SkipSpace(s) == [] || !IsSpace(SkipSpace(s)[0]))
  {
    if |s| > 0 && IsSpace(s[0]) {
      SkipSpaceSplits(s[1..]);
      var n := |s| - |SkipSpace(s)|;
      assert s[1..][n - 1..] == s[n..] && s[..n] == [s[0]] + s[1..][..n - 1];
    }
  }

  lemma {:induction false} SkipSpaceSkips(gap: string, rest: string)
    requires (forall c <- gap :: IsSpace(c)) && |rest| > 0 && !IsSpace(rest[0])
    ensures SkipSpace(gap + rest) == rest
  {
    if |gap| > 0 {
      assert gap[0] in gap && forall c <- gap[1..] :: c in gap;
      assert (gap + rest)[1..] == gap[1..] + rest;
      SkipSpaceSkips(gap[1..], rest);
    } else {
      assert gap + rest == rest;
    }
  }

  lemma LowerSplits(a: string, b: string)
    ensures Lower(a + b) == Lower(a) + Lower(b)
  {
  }

  /** The text is spaces, the word in some case, and the tail. */
  ghost predicate SpacedWord(s: string, gap: string, w: string, word: string, tail: string) {
    s == gap + w + tail && Spaces(gap) && Lower(w) == word
  }

  lemma SpacedWordIsFound(s: string, word: string) returns (gap: string, w: string)
    requires AfterSpacedWord(s, word).Some?
    ensures SpacedWord(s, gap, w, word, AfterSpacedWord(s, word).value)
  {
    SkipSpaceSplits(s);
    var rest := SkipSpace(s);
    gap, w := s[..|s| - |rest|], rest[..|word|];
    assert s == gap + rest && rest == w + rest[|word|..];
    LowerSplits(w, rest[|word|..]);
  }

  lemma SpacedWordIsRead(s: string, gap: string, w: string, word: string, tail: string)
    requires SpacedWord(s, gap, w, word, tail) && |word| > 0 && !IsSpace(word[0])
    ensures AfterSpacedWord(s, word) == Some(tail)
  {
    assert s == gap + (w + tail);
    assert gap[0] in gap && Lower(w)[0] == LowerChar(w[0]);
    SkipSpaceSkips(gap, w + tail);
    LowerSplits(w, tail);
    assert (w + tail)[|word|..] == tail;
  }

  lemma QuotedIdIff(rest: string, id: string)
    ensures QuotedId(rest) == Some(id) <==> rest == id + "\"]" && |id| > 0 && '\"' !in id
  {
    if rest == id + "\"]" { assert rest[|rest| - 2..] == "\"]" && rest[..|rest| - 2] == id; }
    if QuotedId(rest).Some? { assert rest == rest[..|rest| - 2] + rest[|rest| - 2..]; }
  }

  /** The path is what the regular expression describes, with the id as its captured group. */
  ghost predicate FilterShape(path: string, head: string, gap: string, eq: string, gap': string, id: string) {
    && path == head + (gap + eq + (gap' + "\"" + (id + "\"]")))
    && Lower(head) == FILTER_HEAD && Spaces(gap) && Lower(eq) == "eq" && Spaces(gap')
    && |id| > 0 && '\"' !in id
  }

  lemma FilterIsRead(path: string, head: string, gap: string, eq: string, gap': string, id: string)
    requires FilterShape(path, head, gap, eq, gap', id)
    ensures FilteredId(path) == Some(id)
  {
    var quoted := gap' + "\"" + (id + "\"]");
    LowerSplits(head, gap + eq + quoted);
    assert path[|head|..] == gap + eq + quoted;
    SpacedWordIsRead(gap + eq + quoted, gap, eq, "eq", quoted);
    SpacedWordIsRead(quoted, gap', "\"", "\"", id + "\"]");
    QuotedIdIff(id + "\"]", id);
  }

  lemma FilterIsFound(path: string) returns (head: string, gap: string, eq: string, gap': string)
    requires FilteredId(path).Some?
    ensures FilterShape(path, head, gap, eq, gap', FilteredId(path).value)
  {
    var n := |FILTER_HEAD|;
    head := path[..n];
    assert path == head + path[n..];
    LowerSplits(head, path[n..]);
    gap, eq := SpacedWordIsFound(path[n..], "eq");
    var afterEq := AfterSpacedWord(path[n..], "eq").value;
    var quote;
    gap', quote := SpacedWordIsFound(afterEq, "\"");
    assert LowerChar(quote[0]) == Lower(quote)[0];
    assert quote == "\"";
    QuotedIdIff(AfterSpacedWord(afterEq, "\"").value, FilteredId(path).value);
  }

  /** The path names an id exactly if it has the form of the regular expression around that id: no other path is taken for a filter. */
  lemma FilterNamesId(path: string, id: string)
    ensures FilteredId(path) == Some(id) <==> exists head, gap, eq, gap' :: FilterShape(path, head, gap, eq, gap', id)
  {
    if FilteredId(path) == Some(id) { var head, gap, eq, gap' := FilterIsFound(path); }
    forall head, gap, eq, gap' | FilterShape(path, head, gap, eq, gap', id) ensures FilteredId(path) == Some(id) {
      FilterIsRead(path, head, gap, eq, gap', id);
    }
  }

  // ===== the loop =============================================================

  datatype Update = Update(displayName: Option<string>, members: Option<seq<string>>)

  /** None stands for null: the request is refused and nothing is written. */
  method ParseScimGroupUpdate(raw: Value, previousMembers: seq<string>) returns (r: Option<Update>)
    ensures r == Outcome(raw, previousMembers)
  {
    var parsed := ParseRequest(raw);
    if parsed.None? { return None; }
    var update := Update(parsed.value.attributes.displayName, parsed.value.attributes.members);
    ghost var initial := update;
    var operations := parsed.value.operations;
    for k := 0 to |operations|
      invariant Applied(initial, operations[..k], previousMembers) == Some(update)
    {
      AppliedStep(initial, operations, k, previousMembers);
      var next := ApplyOperation(update, operations[k], previousMembers);
      if next.None? { return None; }
      update := next.value;
      if update.members.Some? && |update.members.value| > MAX_MEMBERS { return None; }
    }
    assert operations[..|operations|] == operations;
    if update.displayName.None? && update.members.None? { return None; }
    return Some(Update(update.displayName, if update.members.None? then None else Some(Dedup(update.members.value))));
  }

  /** One pass of the loop, up to the size check. */
  method ApplyOperation(update: Update, operation: Operation, previousMembers: seq<string>) returns (next: Option<Update>)
    ensures next == if ActionOf(operation).None? then None else Some(Changed(update, ActionOf(operation).value, previousMembers))
  {
    var displayName, members := update.displayName, update.members;
    var current := if members.Some? then members.value else previousMembers;
    if operation.path.Some? && Lower(operation.path.value) == "displayname" {
      if operation.op == Remove { return None; }
      var name := DisplayName(operation.value);
      if name.None? { return None; }
      displayName := name;
    } else if operation.path.Some? && Lower(operation.path.value) == "members" {
      if operation.op == Remove && operation.value == Undefined {
        members := Some([]);
      } else {
        var values := Members(operation.value);
        if values.None? { return None; }
        match operation.op
        case Add => members := Some(Dedup(current + Dedup(values.value)));
        case Remove => members := Some(Excluding(current, values.value));
        case Replace => members := Some(Dedup(values.value));
      }
    } else if operation.path.None? {
      if operation.op == Remove { return None; }
      var attributes := ParseAttributes(operation.value);
      if attributes.None? || (attributes.value.displayName.None? && attributes.value.members.None?) { return None; }
      if attributes.value.displayName.Some? { displayName := attributes.value.displayName; }
      if attributes.value.members.Some? {
        var ids := attributes.value.members.value;
        members := Some(if operation.op == Add then Dedup(current + Dedup(ids)) else Dedup(ids));
      }
    } else {
      var id := FilteredId(operation.path.value);
      if operation.op != Remove || id.None? || !IsDatabaseId(id.value) || operation.value != Undefined { return None; }
      members := Some(Excluding(current, [id.value]));
    }
    return Some(Update(displayName, members));
  }

  function Excluding(xs: seq<string>, gone: seq<string>): seq<string> {
    if |xs| == 0 then []
    else Excluding(xs[..|xs| - 1], gone) + if xs[|xs| - 1] in gone then [] else [xs[|xs| - 1]]
  }

  // ----- an operation as an action --------------------------------------------

  datatype Change = Keep | Adding(ids: seq<string>) | Removing(ids: seq<string>) | Replacing(ids: seq<string>)

  datatype Action = Action(displayName: Option<string>, change: Change)

  /** What a well-formed operation asks for; None when it is malformed or not supported. */
  function ActionOf(o: Operation): Option<Action> {
    if o.path.Some? && Lower(o.path.value) == "displayname" then
      if o.op == Remove || DisplayName(o.value).None? then None else Some(Action(DisplayName(o.value), Keep))
    else if o.path.Some? && Lower(o.path.value) == "members" then
      if o.op == Remove && o.value == Undefined then Some(Action(None, Replacing([])))
      else if Members(o.value).None? then None
      else
        var ids := Members(o.value).value;
        Some(Action(None, if o.op == Add then Adding(ids) else if o.op == Remove then Removing(ids) else Replacing(ids)))
    else if o.path.None? then
      var attributes := ParseAttributes(o.value);
      if o.op == Remove || attributes.None? || (attributes.value.displayName.None? && attributes.value.members.None?) then None
      else
        var members := attributes.value.members;
        Some(Action(attributes.value.displayName,
                    if members.None? then Keep else if o.op == Add then Adding(members.value) else Replacing(members.value)))
    else
      var id := FilteredId(o.path.value);
      if o.op != Remove || id.None? || !IsDatabaseId(id.value) || o.value != Undefined then None
      else Some(Action(None, Removing([id.value])))
  }

  function Changed(u: Update, a: Action, previous: seq<string>): Update {
    var current := u.members.GetOr(previous);
    Update(
      if a.displayName.Some? then a.displayName else u.displayName,
      match a.change
      case Keep => u.members
      case Adding(ids) => Some(Dedup(current + Dedup(ids)))
      case Removing(ids) => Some(Excluding(current, ids))
      case Replacing(ids) => Some(Dedup(ids)))
  }

  predicate TooMany(u: Update) { u.members.Some? && |u.members.value| > MAX_MEMBERS }

  function Applied(u: Update, operations: seq<Operation>, previous: seq<string>): Option<Update> {
    if |operations| == 0 then Some(u)
    else
      var before, action := Applied(u, operations[..|operations| - 1], previous), ActionOf(operations[|operations| - 1]);
      if before.None? || action.None? || TooMany(Changed(before.value, action.value, previous)) then None
      else Some(Changed(before.value, action.value, previous))
  }

  function Outcome(raw: Value, previous: seq<string>): Option<Update> {
    var request := ParseRequest(raw);
    if request.None? then None
    else
      var u := Applied(Update(request.value.attributes.displayName, request.value.attributes.members), request.value.operations, previous);
      if u.None? || (u.value.displayName.None? && u.value.members.None?) then None
      else Some(u.value.(members := if u.value.members.None? then None else Some(Dedup(u.value.members.value))))
  }

  lemma {:induction false} AppliedStep(u: Update, operations: seq<Operation>, k: nat, previous: seq<string>)
    requires k < |operations|
    ensures Applied(u, operations[..k + 1], previous) ==
            var before, action := Applied(u, operations[..k], previous), ActionOf(operations[k]);
            if before.None? || action.None? || TooMany(Changed(before.value, action.value, previous)) then None
            else Some(Changed(before.value, action.value, previous))
    ensures Applied(u, operations[..k + 1], previous).None? ==> Applied(u, operations, previous).None?
    decreases |operations| - k
  {
    assert operations[..k + 1][..k] == operations[..k];
    if k + 1 < |operations| {
      AppliedStep(u, operations, k + 1, previous);
    } else {
      assert operations[..k + 1] == operations;
    }
  }

  // ===== set semantics ========================================================

  function Elements(xs: seq<string>): set<string> { set x <- xs }

  datatype Meaning = Meaning(displayName: Option<string>, members: Option<set<string>>)

  function MeaningOf(u: Update): Meaning {
    Meaning(u.displayName, if u.members.None? then None else Some(Elements(u.members.value)))
  }

  /** Union, difference and replacement on the member set. */
  function Effect(m: Meaning, a: Action, previous: set<string>): Meaning {
    var current := m.members.GetOr(previous);
    Meaning(
      if a.displayName.Some? then a.displayName else m.displayName,
      match a.change
      case Keep => m.members
      case Adding(ids) => Some(current + Elements(ids))
      case Removing(ids) => Some(current - Elements(ids))
      case Replacing(ids) => Some(Elements(ids)))
  }

  // ----- what a request asks for, read off op, path and value ------------------

  predicate Concerns(o: Operation, attribute: string) { o.path.Some? && Lower(o.path.value) == attribute }

  /** The ids that an operation on the members, or without a path, lists. */
  function Listed(o: Operation): Option<seq<string>> {
    if o.path.Some? then Members(o.value) else if ParseAttributes(o.value).Some? then ParseAttributes(o.value).value.members else None
  }

  function Combined(op: Op, current: set<string>, ids: set<string>): set<string> {
    match op
    case Add => current + ids
    case Remove => current - ids
    case Replace => ids
  }

  /** Section 3.5.2 of RFC 7644 on a name and a member set: what the operation leaves; None if it is malformed or not supported. */
  function Reading(o: Operation, m: Meaning, previous: set<string>): Option<Meaning> {
    var current := m.members.GetOr(previous);
    if Concerns(o, "displayname") then
      if o.op != Remove && DisplayName(o.value).Some? then Some(m.(displayName := DisplayName(o.value))) else None
    else if Concerns(o, "members") then
      if o.op == Remove && o.value == Undefined then Some(m.(members := Some({})))
      else if Listed(o).Some? then Some(m.(members := Some(Combined(o.op, current, Elements(Listed(o).value))))) else None
    else if o.path.Some? then
      var id := FilteredId(o.path.value);
      if o.op == Remove && o.value == Undefined && id.Some? && IsDatabaseId(id.value) then Some(m.(members := Some(current - {id.value}))) else None
    else if o.op == Remove || ParseAttributes(o.value).None? then None
    else
      var name := ParseAttributes(o.value).value.displayName;
      if name.None? && Listed(o).None? then None
      else
        Some(Meaning(if name.Some? then name else m.displayName,
                     if Listed(o).None? then m.members else Some(Combined(o.op, current, Elements(Listed(o).value)))))
  }

  lemma ReadingIsAction(o: Operation, m: Meaning, previous: set<string>)
    ensures Reading(o, m, previous) == if ActionOf(o).None? then None else Some(Effect(m, ActionOf(o).value, previous))
  {
    if o.path.Some? && FilteredId(o.path.value).Some? {
      var id := FilteredId(o.path.value).value;
      assert Elements([id]) == {id};
    }
    assert Elements([]) == {};
  }

  /** Exactly the operations that are refused, whatever group they are applied to. */
  predicate Refused(o: Operation) {
    if Concerns(o, "displayname") then o.op == Remove || DisplayName(o.value).None?
    else if Concerns(o, "members") then Members(o.value).None? && !(o.op == Remove && o.value == Undefined)
    else if o.path.Some? then
      !(o.op == Remove && o.value == Undefined && FilteredId(o.path.value).Some? && IsDatabaseId(FilteredId(o.path.value).value))
    else o.op == Remove || ParseAttributes(o.value).None? || ParseAttributes(o.value).value == Attributes(None, None)
  }

  lemma RefusedIff(o: Operation, m: Meaning, previous: set<string>)
    ensures Refused(o) <==> Reading(o, m, previous).None?
    ensures Refused(o) <==> ActionOf(o).None?
  {
    ReadingIsAction(o, m, previous);
  }

  /** The left fold over the operations in request order; None as soon as one is refused or leaves too many members. */
  function Folded(m: Meaning, operations: seq<Operation>, previous: set<string>): Option<Meaning> {
    if |operations| == 0 then Some(m)
    else
      var before := Folded(m, operations[..|operations| - 1], previous);
      if before.None? then None
      else
        var after := Reading(operations[|operations| - 1], before.value, previous);
        if after.None? || (after.value.members.Some? && |after.value.members.value| > MAX_MEMBERS) then None else after
  }

  lemma {:induction false} ExcludingMembers(xs: seq<string>, gone: seq<string>, x: string)
    ensures x in Excluding(xs, gone) <==> x in xs && x !in gone
  {
    if |xs| != 0 {
      var front, last := xs[..|xs| - 1], xs[|xs| - 1];
      ExcludingMembers(front, gone, x);
      assert xs == front + [last];
    }
  }

  lemma {:induction false} ExcludingStaysDistinct(xs: seq<string>, gone: seq<string>)
    ensures |Excluding(xs, gone)| <= |xs|
    ensures Distinct(xs) ==> Distinct(Excluding(xs, gone))
  {
    if |xs| != 0 {
      var front, last := xs[..|xs| - 1], xs[|xs| - 1];
      ExcludingStaysDistinct(front, gone);
      if Distinct(xs) && last !in gone {
        ExcludingMembers(front, gone, last);
        DistinctConcat(Excluding(front, gone), [last]);
      }
    }
  }

  lemma ExcludingIsDifference(xs: seq<string>, gone: seq<string>)
    ensures Elements(Excluding(xs, gone)) == Elements(xs) - Elements(gone)
    ensures Distinct(xs) ==> Distinct(Excluding(xs, gone))
    ensures |Excluding(xs, gone)| <= |xs|
  {
    forall x ensures x in Excluding(xs, gone) <==> x in xs && x !in gone { ExcludingMembers(xs, gone, x); }
    ExcludingStaysDistinct(xs, gone);
  }

  lemma DedupElements(xs: seq<string>)
    ensures Elements(Dedup(xs)) == Elements(xs) && Distinct(Dedup(xs)) && |Dedup(xs)| <= |xs|
  {
    DedupIsSet(xs);
  }

  lemma {:induction false} DistinctSize(xs: seq<string>)
    ensures |Elements(xs)| <= |xs| && (Distinct(xs) ==> |Elements(xs)| == |xs|)
  {
    if |xs| > 0 {
      var front, last := xs[..|xs| - 1], xs[|xs| - 1];
      DistinctSize(front);
      assert xs == front + [last];
      assert Elements(xs) == Elements(front) + {last};
      if Distinct(xs) {
        assert Distinct(front);
        assert last !in front;
      }
    }
  }

  lemma ChangedMeans(u: Update, a: Action, previous: seq<string>)
    ensures MeaningOf(Changed(u, a, previous)) == Effect(MeaningOf(u), a, Elements(previous))
  {
    var current := u.members.GetOr(previous);
    match a.change
    case Keep =>
    case Adding(ids) =>
      DedupElements(ids);
      DedupElements(current + Dedup(ids));
      assert Elements(current + Dedup(ids)) == Elements(current) + Elements(Dedup(ids));
    case Removing(ids) => ExcludingIsDifference(current, ids);
    case Replacing(ids) => DedupElements(ids);
  }

  /** A member list whose length the size check may trust: without repetitions, or short enough anyway. */
  ghost predicate CountableList(xs: seq<string>) { Distinct(xs) || |xs| <= MAX_MEMBERS }

  ghost predicate Countable(u: Update) { u.members.Some? ==> CountableList(u.members.value) }

  /** The first change of the members, which still works on the stored list. */
  function FirstChange(operations: seq<Operation>): Change {
    if |operations| == 0 then Keep
    else
      var first, action := FirstChange(operations[..|operations| - 1]), ActionOf(operations[|operations| - 1]);
      if first != Keep then first else if action.Some? then action.value.change else Keep
  }

  /** That change is a removal after which the stored list is too long, counted with its repetitions. */
  ghost predicate Overcounted(members: Option<seq<string>>, operations: seq<Operation>, previous: seq<string>) {
    members.None? && FirstChange(operations).Removing? && !CountableList(Excluding(previous, FirstChange(operations).ids))
  }

  lemma ChangedIsCountable(u: Update, a: Action, previous: seq<string>)
    requires Countable(u)
    requires u.members.None? && a.change.Removing? ==> CountableList(Excluding(previous, a.change.ids))
    ensures Countable(Changed(u, a, previous))
  {
    var current := u.members.GetOr(previous);
    match a.change
    case Keep =>
    case Adding(ids) => DedupElements(current + Dedup(ids));
    case Removing(ids) => ExcludingIsDifference(current, ids);
    case Replacing(ids) => DedupElements(ids);
  }

  lemma {:induction false} UnchangedMembers(u: Update, operations: seq<Operation>, previous: seq<string>)
    requires Applied(u, operations, previous).Some?
    ensures Applied(u, operations, previous).value.members.None? <==> u.members.None? && FirstChange(operations) == Keep
  {
    if |operations| > 0 { UnchangedMembers(u, operations[..|operations| - 1], previous); }
  }

  lemma {:induction false} OvercountedIsRefused(u: Update, operations: seq<Operation>, previous: seq<string>)
    requires Overcounted(u.members, operations, previous)
    ensures Applied(u, operations, previous).None?
  {
    if |operations| > 0 {
      var front := operations[..|operations| - 1];
      if FirstChange(front) != Keep {
        OvercountedIsRefused(u, front, previous);
      } else if Applied(u, front, previous).Some? {
        UnchangedMembers(u, front, previous);
      }
    }
  }

  lemma CountableSize(u: Update)
    requires Countable(u)
    ensures TooMany(u) <==> u.members.Some? && |Elements(u.members.value)| > MAX_MEMBERS
  {
    if u.members.Some? { DistinctSize(u.members.value); }
  }

  lemma {:induction false} AppliedIsFolded(u: Update, operations: seq<Operation>, previous: seq<string>)
    requires Countable(u) && !Overcounted(u.members, operations, previous)
    ensures var a, f := Applied(u, operations, previous), Folded(MeaningOf(u), operations, Elements(previous));
            (a.Some? <==> f.Some?) && (a.Some? ==> MeaningOf(a.value) == f.value && Countable(a.value))
  {
    if |operations| > 0 {
      var front, action := operations[..|operations| - 1], ActionOf(operations[|operations| - 1]);
      AppliedIsFolded(u, front, previous);
      var before := Applied(u, front, previous);
      if before.Some? { ReadingIsAction(operations[|operations| - 1], MeaningOf(before.value), Elements(previous)); }
      if before.Some? && action.Some? {
        UnchangedMembers(u, front, previous);
        ChangedMeans(before.value, action.value, previous);
        ChangedIsCountable(before.value, action.value, previous);
        CountableSize(Changed(before.value, action.value, previous));
      }
    }
  }

  // ----- main results ---------------------------------------------------------

  function StartOf(raw: Value): Update
    requires ParseRequest(raw).Some?
  {
    Update(ParseRequest(raw).value.attributes.displayName, ParseRequest(raw).value.attributes.members)
  }

  /** The set fold's answer to a well-formed request. */
  function FoldOf(raw: Value, previous: set<string>): Option<Meaning>
    requires ParseRequest(raw).Some?
  {
    var f := Folded(MeaningOf(StartOf(raw)), ParseRequest(raw).value.operations, previous);
    if f.None? || (f.value.displayName.None? && f.value.members.None?) then None else f
  }

  /** The list code is the set fold: same refusals, same name, same member set. */
  ghost predicate IsSetFold(raw: Value, previous: seq<string>) {
    if ParseRequest(raw).None? then Outcome(raw, previous).None?
    else
      var r, f := Outcome(raw, previous), FoldOf(raw, Elements(previous));
      (r.Some? <==> f.Some?) && (r.Some? ==> MeaningOf(r.value) == f.value)
  }

  /**
   * For every request and every stored list: the code is the set fold unless the
   * fold accepts, and the first change of the members is a removal that leaves
   * the stored list with repetitions and more than 10,000 places.
   */
  lemma UpdateIsSetFold(raw: Value, previous: seq<string>)
    ensures IsSetFold(raw, previous) <==>
            !(ParseRequest(raw).Some? && FoldOf(raw, Elements(previous)).Some?
              && Overcounted(StartOf(raw).members, ParseRequest(raw).value.operations, previous))
  {
    if ParseRequest(raw).Some? {
      var operations := ParseRequest(raw).value.operations;
      if Overcounted(StartOf(raw).members, operations, previous) {
        OvercountedIsRefused(StartOf(raw), operations, previous);
      } else {
        AppliedIsFolded(StartOf(raw), operations, previous);
        OutcomeMeans(raw, previous);
      }
    }
  }

  /** A stored list without repetitions, or short enough with them, is never overcounted. */
  lemma CountableListIsSetFold(raw: Value, previous: seq<string>)
    requires CountableList(previous)
    ensures IsSetFold(raw, previous)
  {
    if ParseRequest(raw).Some? {
      var change := FirstChange(ParseRequest(raw).value.operations);
      if change.Removing? { ExcludingIsDifference(previous, change.ids); }
    }
    UpdateIsSetFold(raw, previous);
  }

  lemma OutcomeMeans(raw: Value, previous: seq<string>)
    requires ParseRequest(raw).Some?
    ensures var a, r := Applied(StartOf(raw), ParseRequest(raw).value.operations, previous), Outcome(raw, previous);
            && (r.Some? <==> a.Some? && (a.value.displayName.Some? || a.value.members.Some?))
            && (r.Some? ==> MeaningOf(r.value) == MeaningOf(a.value))
  {
    var a := Applied(StartOf(raw), ParseRequest(raw).value.operations, previous);
    if a.Some? && a.value.members.Some? { DedupElements(a.value.members.value); }
  }

  lemma {:induction false} AcceptedIsFolded(u: Update, operations: seq<Operation>, previous: seq<string>)
    requires Applied(u, operations, previous).Some?
    ensures Folded(MeaningOf(u), operations, Elements(previous)) == Some(MeaningOf(Applied(u, operations, previous).value))
  {
    if |operations| > 0 {
      var front, action := operations[..|operations| - 1], ActionOf(operations[|operations| - 1]);
      AcceptedIsFolded(u, front, previous);
      ReadingIsAction(operations[|operations| - 1], MeaningOf(Applied(u, front, previous).value), Elements(previous));
      var after := Changed(Applied(u, front, previous).value, action.value, previous);
      ChangedMeans(Applied(u, front, previous).value, action.value, previous);
      if after.members.Some? { DistinctSize(after.members.value); }
    }
  }

  /** Whatever is stored, the list code never accepts what the set fold refuses, and accepts nothing else than its answer. */
  lemma AcceptedUpdateIsFold(raw: Value, previous: seq<string>)
    requires Outcome(raw, previous).Some?
    ensures FoldOf(raw, Elements(previous)) == Some(MeaningOf(Outcome(raw, previous).value))
  {
    AcceptedIsFolded(StartOf(raw), ParseRequest(raw).value.operations, previous);
    OutcomeMeans(raw, previous);
  }

  /** A request that removes nobody. */
  const REMOVE_NOBODY: Value :=
    Obj(map["Operations" := Arr([Obj(map["op" := Str("remove"), "path" := Str("members"), "value" := Arr([])])])])

  lemma OneOperation(v: Value)
    ensures ParseOperations([v]) == if ParseOperation(v).None? then None else Some([ParseOperation(v).value])
  {
    assert [v][..0] == [] && ParseOperations([]) == Some([]);
    assert forall o: Operation :: [] + [o] == [o];
  }

  lemma NobodyParses(v: Value)
    requires v == Obj(map["op" := Str("remove"), "path" := Str("members"), "value" := Arr([])])
    ensures ParseOperation(v) == Some(Operation(Remove, Some("members"), Arr([])))
  {
    assert Lower("remove") == "remove";
  }

  lemma RemoveNobodyParses()
    ensures ParseRequest(REMOVE_NOBODY) == Some(Request(Attributes(None, None), [Operation(Remove, Some("members"), Arr([]))]))
    ensures ActionOf(Operation(Remove, Some("members"), Arr([]))) == Some(Action(None, Removing([])))
  {
    var v := Obj(map["op" := Str("remove"), "path" := Str("members"), "value" := Arr([])]);
    NobodyParses(v);
    OneOperation(v);
    assert Lower("members") == "members";
    assert MemberIds([]) == [];
    assert Members(Arr([])) == Some([]);
  }

  lemma OneApplied(u: Update, o: Operation, previous: seq<string>)
    requires ActionOf(o).Some?
    ensures var after := Changed(u, ActionOf(o).value, previous); Applied(u, [o], previous) == if TooMany(after) then None else Some(after)
  {
    assert [o][..0] == [] && Applied(u, [], previous) == Some(u);
  }

  lemma OneFolded(m: Meaning, o: Operation, previous: set<string>)
    ensures var after := Reading(o, m, previous);
            Folded(m, [o], previous) ==
            if after.None? || (after.value.members.Some? && |after.value.members.value| > MAX_MEMBERS) then None else after
  {
    assert [o][..0] == [] && Folded(m, [], previous) == Some(m);
  }

  /** A stored list that is too long only because of repetitions is refused, though its set is small enough. */
  lemma RepetitionsAreCounted(previous: seq<string>)
    requires |previous| > MAX_MEMBERS >= |Elements(previous)|
    ensures !IsSetFold(REMOVE_NOBODY, previous)
  {
    RemoveNobodyParses();
    var u, o := Update(None, None), Operation(Remove, Some("members"), Arr([]));
    ExcludingNobody(previous);
    OneApplied(u, o, previous);
    assert Elements(previous) - Elements([]) == Elements(previous);
    ReadingIsAction(o, MeaningOf(u), Elements(previous));
    OneFolded(MeaningOf(u), o, Elements(previous));
  }

  lemma {:induction false} ExcludingNobody(xs: seq<string>)
    ensures Excluding(xs, []) == xs
  {
    if |xs| > 0 {
      ExcludingNobody(xs[..|xs| - 1]);
      assert xs[..|xs| - 1] + [xs[|xs| - 1]] == xs;
    }
  }

  /** For a stored list of at most 10,000 different members: every request has the fold's outcome if and only if the list itself is not longer. */
  lemma SetFoldIff(previous: seq<string>)
    requires |Elements(previous)| <= MAX_MEMBERS
    ensures (forall raw :: IsSetFold(raw, previous)) <==> |previous| <= MAX_MEMBERS
  {
    if |previous| <= MAX_MEMBERS {
      forall raw ensures IsSetFold(raw, previous) { CountableListIsSetFold(raw, previous); }
    } else {
      RepetitionsAreCounted(previous);
    }
  }

  lemma {:induction false} AppliedIsSmall(u: Update, operations: seq<Operation>, previous: seq<string>)
    requires !TooMany(u)
    ensures Applied(u, operations, previous).Some? ==> !TooMany(Applied(u, operations, previous).value)
  {
    if |operations| > 0 { AppliedIsSmall(u, operations[..|operations| - 1], previous); }
  }

  /** Whatever was stored before, an accepted update has no repeated member and at most 10,000 of them. */
  lemma ResultIsBoundedSet(raw: Value, previous: seq<string>)
    requires Outcome(raw, previous).Some? && Outcome(raw, previous).value.members.Some?
    ensures var members := Outcome(raw, previous).value.members.value; Distinct(members) && |members| <= MAX_MEMBERS
  {
    var attributes := ParseRequest(raw).value.attributes;
    var u := Update(attributes.displayName, attributes.members);
    AppliedIsSmall(u, ParseRequest(raw).value.operations, previous);
    DedupElements(Applied(u, ParseRequest(raw).value.operations, previous).value.members.value);
  }

  /** One invalid operation, anywhere, refuses the whole request. */
  lemma InvalidOperationRefusesAll(raw: Value, previous: seq<string>, i: nat)
    requires ParseRequest(raw).Some? && i < |ParseRequest(raw).value.operations|
    requires Refused(ParseRequest(raw).value.operations[i])
    ensures Outcome(raw, previous) == None
  {
    RefusedIff(ParseRequest(raw).value.operations[i], Meaning(None, None), {});
    var request := ParseRequest(raw).value;
    AppliedStep(Update(request.attributes.displayName, request.attributes.members), request.operations, i, previous);
  }

  // ----- the last operation that mentions a member decides --------------------

  /** An operation settles the membership of x if it leaves the same whether or not x was a member before. */
  function Settles(o: Operation, x: string): Option<bool> {
    var with, without := Reading(o, Meaning(None, Some({x})), {}), Reading(o, Meaning(None, Some({})), {});
    if with.None? || without.None? || with.value.members.None? || without.value.members.None? then None
    else if (x in with.value.members.value) != (x in without.value.members.value) then None
    else Some(x in with.value.members.value)
  }

  function LastVerdict(operations: seq<Operation>, x: string): Option<bool> {
    if |operations| == 0 then None
    else
      var verdict := Settles(operations[|operations| - 1], x);
      if verdict.Some? then verdict else LastVerdict(operations[..|operations| - 1], x)
  }

  function MembersAfter(u: Update, previous: seq<string>): seq<string> { u.members.GetOr(previous) }

  /** Membership of x after an operation depends only on membership of x before. */
  lemma SettlesOrKeeps(o: Operation, m: Meaning, previous: set<string>, x: string)
    requires Reading(o, m, previous).Some?
    ensures x in Reading(o, m, previous).value.members.GetOr(previous) <==> Settles(o, x).GetOr(x in m.members.GetOr(previous))
  {
  }

  lemma OneVerdict(u: Update, o: Operation, previous: seq<string>, x: string)
    requires ActionOf(o).Some?
    ensures x in MembersAfter(Changed(u, ActionOf(o).value, previous), previous) <==> Settles(o, x).GetOr(x in MembersAfter(u, previous))
  {
    var after := Changed(u, ActionOf(o).value, previous);
    ChangedMeans(u, ActionOf(o).value, previous);
    ReadingIsAction(o, MeaningOf(u), Elements(previous));
    SettlesOrKeeps(o, MeaningOf(u), Elements(previous), x);
    MemberOfMeaning(u, previous, x);
    MemberOfMeaning(after, previous, x);
  }

  lemma MemberOfMeaning(u: Update, previous: seq<string>, x: string)
    ensures x in MembersAfter(u, previous) <==> x in MeaningOf(u).members.GetOr(Elements(previous))
  {
  }

  lemma {:induction false} AppliedMembership(u: Update, operations: seq<Operation>, previous: seq<string>, x: string)
    requires Applied(u, operations, previous).Some?
    ensures x in MembersAfter(Applied(u, operations, previous).value, previous) <==>
            LastVerdict(operations, x).GetOr(x in MembersAfter(u, previous))
  {
    if |operations| > 0 {
      var front := operations[..|operations| - 1];
      AppliedMembership(u, front, previous, x);
      OneVerdict(Applied(u, front, previous).value, operations[|operations| - 1], previous, x);
    }
  }

  /** In an accepted update a member belongs exactly as the last operation that settles it says, or else as before. */
  lemma LastOperationDecides(raw: Value, previous: seq<string>, x: string)
    requires Outcome(raw, previous).Some?
    ensures var request := ParseRequest(raw).value;
            x in MembersAfter(Outcome(raw, previous).value, previous) <==>
            LastVerdict(request.operations, x).GetOr(x in request.attributes.members.GetOr(previous))
  {
    var request := ParseRequest(raw).value;
    var u := Update(request.attributes.displayName, request.attributes.members);
    AppliedMembership(u, request.operations, previous, x);
    var applied := Applied(u, request.operations, previous).value;
    if applied.members.Some? { DedupIsSet(applied.members.value); }
  }

  // ----- requests as they are sent --------------------------------------------

  /** A request with one operation on the members, and one that only has attributes. */
  function MembersRequest(op: string, value: Value): Value {
    Obj(map["Operations" := Arr([Obj(map["op" := Str(op), "path" := Str("members"), "value" := value])])])
  }

  function AttributesRequest(name: string, members: Value): Value { Obj(map["displayName" := Str(name), "members" := members]) }

  lemma MembersRequestParses(op: string, value: Value, parsed: Op)
    requires ParseOp(Str(op)) == Some(parsed)
    ensures ParseRequest(MembersRequest(op, value)) == Some(Request(Attributes(None, None), [Operation(parsed, Some("members"), value)]))
  {
    var v := Obj(map["op" := Str(op), "path" := Str("members"), "value" := value]);
    assert ParseOperation(v) == Some(Operation(parsed, Some("members"), value));
    OneOperation(v);
  }

  lemma MembersReading(op: Op, value: Value, previous: set<string>)
    requires Members(value).Some?
    ensures Reading(Operation(op, Some("members"), value), Meaning(None, None), previous) ==
            Some(Meaning(None, Some(Combined(op, previous, Elements(Members(value).value)))))
  {
    assert Lower("members") == "members" && value != Undefined;
  }

  lemma MembersFold(op: Op, value: Value, previous: set<string>)
    requires Members(value).Some?
    ensures var after := Combined(op, previous, Elements(Members(value).value));
            Folded(Meaning(None, None), [Operation(op, Some("members"), value)], previous) ==
            if |after| > MAX_MEMBERS then None else Some(Meaning(None, Some(after)))
  {
    MembersReading(op, value, previous);
    OneFolded(Meaning(None, None), Operation(op, Some("members"), value), previous);
  }

  lemma MembersRequestMeans(op: string, value: Value, parsed: Op, previous: seq<string>)
    requires ParseOp(Str(op)) == Some(parsed) && Members(value).Some? && CountableList(previous)
    ensures var r, after := Outcome(MembersRequest(op, value), previous), Combined(parsed, Elements(previous), Elements(Members(value).value));
            if |after| > MAX_MEMBERS then r.None? else r.Some? && MeaningOf(r.value) == Meaning(None, Some(after))
  {
    MembersRequestParses(op, value, parsed);
    MembersFold(parsed, value, Elements(previous));
    CountableListIsSetFold(MembersRequest(op, value), previous);
  }

  /**
   * The three operations in the words of a request, in any letter case: "add"
   * unites, "remove" subtracts, "replace" replaces, and any other word is refused.
   */
  lemma WordsDecide(op: string, value: Value, previous: seq<string>)
    requires Members(value).Some? && CountableList(previous)
    ensures var r, before, ids := Outcome(MembersRequest(op, value), previous), Elements(previous), Elements(Members(value).value);
            && (Lower(op) == "add" && |before + ids| <= MAX_MEMBERS ==> r.Some? && MeaningOf(r.value) == Meaning(None, Some(before + ids)))
            && (Lower(op) == "remove" && |before - ids| <= MAX_MEMBERS ==> r.Some? && MeaningOf(r.value) == Meaning(None, Some(before - ids)))
            && (Lower(op) == "replace" && |ids| <= MAX_MEMBERS ==> r.Some? && MeaningOf(r.value) == Meaning(None, Some(ids)))
            && (Lower(op) != "add" && Lower(op) != "remove" && Lower(op) != "replace" ==> r.None?)
  {
    if ParseOp(Str(op)).Some? {
      MembersRequestMeans(op, value, ParseOp(Str(op)).value, previous);
    } else {
      var v := Obj(map["op" := Str(op), "path" := Str("members"), "value" := value]);
      OneOperation(v);
    }
  }

  /** A request without operations replaces name and members by those it brings. */
  lemma AttributesReplace(name: string, value: Value, previous: seq<string>)
    requires DisplayName(Str(name)).Some? && Members(value).Some?
    ensures var r := Outcome(AttributesRequest(name, value), previous);
            r.Some? && MeaningOf(r.value) == Meaning(DisplayName(Str(name)), Some(Elements(Members(value).value)))
  {
    var raw := AttributesRequest(name, value);
    assert ParseRequest(raw) == Some(Request(Attributes(DisplayName(Str(name)), Members(value)), []));
    DedupElements(Members(value).value);
  }

  ghost predicate Spells(items: seq<Value>, ids: seq<string>) {
    && |items| == |ids|
    && forall i | 0 <= i < |items| ::
         items[i].Obj? && "value" in items[i].fields && items[i].fields["value"] == Str(ids[i]) && IsDatabaseId(ids[i])
  }

  /** A member list is read entry by entry: objects whose `value` is a database id, at most 10,000 of them. */
  lemma MembersAre(items: seq<Value>, ids: seq<string>)
    ensures Members(Arr(items)) == Some(ids) <==> Spells(items, ids) && |items| <= 10_000
  {
    if Members(Arr(items)) == Some(ids) {
      forall i | 0 <= i < |items| ensures IsMember(items[i]) && ids[i] == MemberId(items[i]) { assert items[i] in items; }
    }
    if Spells(items, ids) { assert MemberIds(items) == ids; }
  }

  /** A request has one to a hundred operations, or none at all. */
  lemma OperationLimits(items: seq<Value>, previous: seq<string>)
    requires |items| == 0 || |items| > 100
    ensures Outcome(Obj(map["Operations" := Arr(items)]), previous) == None
  {
  }

  // ----- names ----------------------------------------------------------------

  /** Neither end of a name is a space, and it has at least one character. */
  predicate Trimmed(name: string) { |name| > 0 && !IsSpace(name[0]) && !IsSpace(name[|name| - 1]) }

  lemma {:induction false} TrimSplits(s: string) returns (a: string, b: string)
    ensures s == a + Trim(s) + b && (forall c <- a + b :: IsSpace(c)) && (Trim(s) == "" || Trimmed(Trim(s)))
    decreases |s|
  {
    if |s| > 0 && IsSpace(s[0]) {
      a, b := TrimSplits(s[1..]);
      assert s == [s[0]] + s[1..] && [s[0]] + (a + Trim(s) + b) == ([s[0]] + a) + Trim(s) + b;
      a := [s[0]] + a;
    } else if |s| > 0 && IsSpace(s[|s| - 1]) {
      a, b := TrimSplits(s[..|s| - 1]);
      var last := [s[|s| - 1]];
      assert s == s[..|s| - 1] + last && (a + Trim(s) + b) + last == a + Trim(s) + (b + last);
      b := b + last;
    } else {
      a, b := "", "";
    }
  }

  lemma {:induction false} TrimOfPadded(a: string, name: string, b: string)
    requires Trimmed(name) && forall c <- a + b :: IsSpace(c)
    ensures Trim(a + name + b) == name
    decreases |a| + |b|
  {
    var s := a + name + b;
    if |a| > 0 {
      assert a[0] in a + b && (forall c <- a[1..] + b :: c in a + b) && s[1..] == a[1..] + name + b;
      TrimOfPadded(a[1..], name, b);
    } else if |b| > 0 {
      assert b[|b| - 1] in a + b && (forall c <- a + b[..|b| - 1] :: c in a + b) && s[..|s| - 1] == a + name + b[..|b| - 1];
      TrimOfPadded(a, name, b[..|b| - 1]);
    } else {
      assert s == name;
    }
  }

  ghost predicate IsPadded(s: string, a: string, name: string, b: string) { s == a + name + b && forall c <- a + b :: IsSpace(c) }

  /** A display name is what stands between the outer spaces, one to 255 characters. */
  lemma DisplayNameIff(s: string, name: string)
    ensures DisplayName(Str(s)) == Some(name) <==> Trimmed(name) && |name| <= 255 && exists a, b :: IsPadded(s, a, name, b)
  {
    var a, b := TrimSplits(s);
    if DisplayName(Str(s)) == Some(name) { assert IsPadded(s, a, name, b); }
    forall x, y | Trimmed(name) && IsPadded(s, x, name, y) ensures Trim(s) == name { TrimOfPadded(x, name, y); }
  }
}
