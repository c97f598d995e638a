/**
 * The user-record store of src/dynamoDB.js: the requests each exported
 * function sends to the DynamoDB document client, how it turns the client's
 * reply into its own result, and the effect of its update expressions on a
 * stored item. The client itself is not modelled: every reply it could give
 * is a parameter.
 */
module DynamoDB {
  import opened Wrappers
  import opened Json

  /** A DynamoDB item as the document client presents it: attribute name to value. */
  type Item = map<string, Value>

  const DefaultTable := "DiscordAccounts"
  const KeyAttribute := "DiscordId"
  const WinsAttribute := "messageLeaderWins"

  // ---------------------------------------------------------------------------
  // Requests and table selection
  // ---------------------------------------------------------------------------

  /** The four commands the module sends, with the parameters it sets on them. */
  datatype Request =
    | Get(table: string, key: Item)
    | Put(table: string, item: Item)
    | Scan(table: string, exclusiveStartKey: Option<Item>)
    | Update(table: string, key: Item, expression: string,
             names: Option<map<string, string>>, values: map<string, Value>)

  /** One call of an exported function: the request it sent and how it settled. */
  datatype Call<T> = Call(request: Request, result: Result<T>)

  /**
   * TABLE_NAME, from the environment variable DYNAMODB_TABLE (`None` when it is
   * unset). `||` tests truthiness, so an empty value also selects the default.
   */
  function TableName(env: Option<string>): (t: string)
    ensures t != ""
    ensures env.Some? && env.value != "" ==> t == env.value
    ensures env.None? || env.value == "" ==> t == DefaultTable
  {
    if env.Some? && env.value != "" then env.value else DefaultTable
  }

  /**
   * The key `{ DiscordId: userId }`. getUserData writes `String(userId)`, which
   * is the identity on the string ids modelled here, so every function
   * addresses the same key.
   */
  function KeyOf(userId: string): (key: Item)
    ensures key.Keys == {KeyAttribute} && key[KeyAttribute].Str? && key[KeyAttribute].s == userId
  {
    map[KeyAttribute := Str(userId)]
  }

  // ---------------------------------------------------------------------------
  // getUserData
  // ---------------------------------------------------------------------------

  /**
   * getUserData: a GetCommand on the hard-coded table "DiscordAccounts". The
   * reply is `Success(Some(item))` when the response holds an Item,
   * `Success(None)` when it holds none, and `Failure` when the call throws.
   * The function never throws: both a missing item and a failure give `null`.
   */
  function GetUserData(userId: string, reply: Result<Option<Item>>): (c: Call<Option<Item>>)
    ensures c.request.Get? && c.request.table == DefaultTable && c.request.key == KeyOf(userId)
    ensures c.result.Success?
    ensures c.result.value.Some? <==> reply.Success? && reply.value.Some?
    ensures c.result.value.Some? ==> c.result.value == reply.value
  {
    var request := Get(DefaultTable, KeyOf(userId));
    match reply
    case Success(item) => Call(request, Success(item))
    case Failure(_) => Call(request, Success(None))
  }

  /** A failed lookup and a lookup that finds nothing are indistinguishable to the caller. */
  lemma GetConflatesAbsentAndFailure(userId: string, fault: Fault)
    ensures GetUserData(userId, Failure(fault)) == GetUserData(userId, Success(None))
    ensures GetUserData(userId, Failure(fault)).result == Success(None)
  {
  }

  // ---------------------------------------------------------------------------
  // saveUserData
  // ---------------------------------------------------------------------------

  /**
   * The item `{ DiscordId: userId, ...userData }`: every field of `userData`,
   * and the key from `userId` only when `userData` has no DiscordId of its own,
   * because the spread comes last.
   */
  function SavedItem(userId: string, userData: Item): (item: Item)
    ensures item.Keys == userData.Keys + {KeyAttribute}
    ensures forall k :: k in userData ==> item[k] == userData[k]
    ensures KeyAttribute !in userData ==> item[KeyAttribute] == Str(userId)
  {
    map[KeyAttribute := Str(userId)] + userData
  }

  /** saveUserData: a PutCommand of SavedItem on TABLE_NAME; a failure is rethrown unchanged. */
  function SaveUserData(env: Option<string>, userId: string, userData: Item, reply: Result<()>)
    : (c: Call<()>)
    ensures c.request.Put? && c.request.table == TableName(env)
    ensures c.request.item == SavedItem(userId, userData)
    ensures c.result == reply
  {
    Call(Put(TableName(env), SavedItem(userId, userData)), reply)
  }

  /**
   * The record is stored under `userId` exactly when `userData` does not carry
   * a different DiscordId.
   */
  lemma SavedUnderUserId(userId: string, userData: Item)
    ensures SavedItem(userId, userData)[KeyAttribute] == Str(userId)
            <==> KeyAttribute !in userData || userData[KeyAttribute] == Str(userId)
  {
  }

  /**
   * getUserData reads the hard-coded table "DiscordAccounts" while the other
   * functions use TABLE_NAME: once DYNAMODB_TABLE names another table, a saved
   * record is never the one getUserData looks up.
   */
  lemma GetMissesConfiguredTable(env: Option<string>, userId: string, userData: Item,
                                 getReply: Result<Option<Item>>, putReply: Result<()>)
    requires env.Some? && env.value != "" && env.value != DefaultTable
    ensures GetUserData(userId, getReply).request.table
            != SaveUserData(env, userId, userData, putReply).request.table
  {
  }

  // ---------------------------------------------------------------------------
  // updateUserData
  // ---------------------------------------------------------------------------

  /** The entries of `updates` in `Object.keys` order: field name and new value. */
  type Updates = seq<(string, Value)>

  /** The keys of a JavaScript object are distinct. */
  predicate DistinctKeys(updates: Updates) {
    forall i, j :: 0 <= i < j < |updates| ==> updates[i].0 != updates[j].0
  }

  function KeySet(updates: Updates): set<string> {
    set j | 0 <= j < |updates| :: updates[j].0
  }

  /** The attribute-name placeholder `#key`. */
  function NameRef(key: string): string {
    "#" + key
  }

  /** The attribute-value placeholder `:key`. */
  function ValueRef(key: string): string {
    ":" + key
  }

  /** Both placeholders determine the key they were made from. */
  lemma RefsInjective(a: string, b: string)
    ensures NameRef(a) == NameRef(b) ==> a == b
    ensures ValueRef(a) == ValueRef(b) ==> a == b
  {
    assert NameRef(a)[1..] == a && NameRef(b)[1..] == b;
    assert ValueRef(a)[1..] == a && ValueRef(b)[1..] == b;
  }

  /** The clause `#key = :key` pushed for one key. */
  function Clause(key: string): string {
    NameRef(key) + " = " + ValueRef(key)
  }

  /** One clause per key, in key order. */
  function Clauses(updates: Updates): (cs: seq<string>)
    ensures |cs| == |updates|
  {
    seq(|updates|, j requires 0 <= j < |updates| => Clause(updates[j].0))
  }

  /** `Array.prototype.join`: the parts with `sep` between each two of them. */
  function Join(parts: seq<string>, sep: string): string {
    if |parts| == 0 then ""
    else if |parts| == 1 then parts[0]
    else parts[0] + sep + Join(parts[1..], sep)
  }

  /**
   * ExpressionAttributeNames and ExpressionAttributeValues resolve every
   * placeholder of `updates`, and hold nothing else: `#k` names `k` and `:k`
   * stands for the new value of `k`.
   */
  predicate Resolves(names: map<string, string>, values: map<string, Value>, updates: Updates) {
    && names.Keys == (set j | 0 <= j < |updates| :: NameRef(updates[j].0))
    && values.Keys == (set j | 0 <= j < |updates| :: ValueRef(updates[j].0))
    && Covers(names, values, updates)
  }

  /** Every placeholder of `updates` resolves as it should (the maps may hold more). */
  predicate Covers(names: map<string, string>, values: map<string, Value>, updates: Updates) {
    forall j :: 0 <= j < |updates| ==>
      && NameRef(updates[j].0) in names && names[NameRef(updates[j].0)] == updates[j].0
      && ValueRef(updates[j].0) in values && values[ValueRef(updates[j].0)] == updates[j].1
  }

  /** `Object.fromEntries(Object.keys(updates).map(key => ['#' + key, key]))`. */
  function AttributeNames(updates: Updates): (names: map<string, string>)
    ensures names.Keys == (set j | 0 <= j < |updates| :: NameRef(updates[j].0))
    ensures forall j :: 0 <= j < |updates| ==> names[NameRef(updates[j].0)] == updates[j].0
  {
    NameRefsInjective(updates);
    map j | 0 <= j < |updates| :: NameRef(updates[j].0) := updates[j].0
  }

  lemma NameRefsInjective(updates: Updates)
    ensures forall j, j' ::
              (0 <= j < |updates| && 0 <= j' < |updates| && NameRef(updates[j].0) == NameRef(updates[j'].0))
              ==> updates[j].0 == updates[j'].0
  {
    forall j, j' | 0 <= j < |updates| && 0 <= j' < |updates| && NameRef(updates[j].0) == NameRef(updates[j'].0)
      ensures updates[j].0 == updates[j'].0
    {
      RefsInjective(updates[j].0, updates[j'].0);
    }
  }

  /**
   * updateUserData: builds `SET #k1 = :k1, #k2 = :k2, ...` and its two
   * placeholder maps from the keys of `updates`, sends one UpdateCommand on
   * TABLE_NAME and rethrows a failure unchanged. Nothing guards an empty
   * `updates`: the expression is then `"SET "` and both maps are empty.
   */
  method UpdateUserData(env: Option<string>, userId: string, updates: Updates, reply: Result<()>)
    returns (c: Call<()>)
    requires DistinctKeys(updates)
    ensures c.request.Update? && c.request.table == TableName(env) && c.request.key == KeyOf(userId)
    ensures c.request.expression == "SET " + Join(Clauses(updates), ", ")
    ensures c.request.names.Some? && Resolves(c.request.names.value, c.request.values, updates)
    ensures updates == [] ==>
              c.request.expression == "SET " && c.request.names == Some(map[]) && c.request.values == map[]
    ensures c.result == reply
  {
    var updateExpressions: seq<string> := [];
    var expressionAttributeValues: map<string, Value> := map[];
    var i := 0;
    while i < |updates|
      invariant 0 <= i <= |updates|
      invariant |updateExpressions| == i
      invariant forall j :: 0 <= j < i ==> updateExpressions[j] == Clause(updates[j].0)
      invariant expressionAttributeValues.Keys == (set j | 0 <= j < i :: ValueRef(updates[j].0))
      invariant forall j :: 0 <= j < i ==> expressionAttributeValues[ValueRef(updates[j].0)] == updates[j].1
    {
      var (key, value) := updates[i];
      updateExpressions := updateExpressions + [Clause(key)];
      forall j | 0 <= j < i ensures ValueRef(updates[j].0) != ValueRef(key) {
        RefsInjective(updates[j].0, key);
      }
      expressionAttributeValues := expressionAttributeValues[ValueRef(key) := value];
      i := i + 1;
    }
    assert updateExpressions == Clauses(updates);
    var request := Update(TableName(env), KeyOf(userId), "SET " + Join(updateExpressions, ", "),
                          Some(AttributeNames(updates)), expressionAttributeValues);
    c := Call(request, reply);
  }

  /** The item an UpdateItem works on: the stored one, or a new item holding only the key. */
  function Target(stored: Option<Item>, key: Item): Item {
    if stored.Some? then stored.value else key
  }

  /** The `(#k, :k)` placeholder pair of each clause of Clauses(updates), in order. */
  function Assignments(updates: Updates): (refs: seq<(string, string)>)
    ensures |refs| == |updates|
    ensures forall j :: 0 <= j < |updates| ==> Clauses(updates)[j] == refs[j].0 + " = " + refs[j].1
  {
    seq(|updates|, j requires 0 <= j < |updates| => (NameRef(updates[j].0), ValueRef(updates[j].0)))
  }

  /**
   * DynamoDB's `SET` action: each clause, in order, sets the attribute its
   * name placeholder resolves to to the value its value placeholder resolves to.
   */
  function ApplyAssignments(item: Item, refs: seq<(string, string)>,
                            names: map<string, string>, values: map<string, Value>): Item
    requires forall j :: 0 <= j < |refs| ==> refs[j].0 in names && refs[j].1 in values
    decreases |refs|
  {
    if refs == [] then item
    else ApplyAssignments(item[names[refs[0].0] := values[refs[0].1]], refs[1..], names, values)
  }

  /**
   * The update updateUserData sends sets each key of `updates` to its value
   * and leaves every other attribute of the item as it was; on a missing item
   * it starts from the key alone.
   */
  lemma {:induction false} UpdateSetsOnlyNamedFields(item: Item, updates: Updates,
                                                     names: map<string, string>, values: map<string, Value>)
    requires DistinctKeys(updates) && Covers(names, values, updates)
    decreases |updates|
    ensures forall j :: 0 <= j < |updates| ==>
              Assignments(updates)[j].0 in names && Assignments(updates)[j].1 in values
    ensures ApplyAssignments(item, Assignments(updates), names, values).Keys == item.Keys + KeySet(updates)
    ensures forall j :: 0 <= j < |updates| ==>
              ApplyAssignments(item, Assignments(updates), names, values)[updates[j].0] == updates[j].1
    ensures forall k :: k in item && k !in KeySet(updates) ==>
              ApplyAssignments(item, Assignments(updates), names, values)[k] == item[k]
  {
    if updates != [] {
      var (k, v) := updates[0];
      var rest := updates[1..];
      assert Assignments(updates)[1..] == Assignments(rest);
      assert forall j :: 0 <= j < |rest| ==> rest[j] == updates[j + 1];
      UpdateSetsOnlyNamedFields(item[k := v], rest, names, values);
    }
  }

  // ---------------------------------------------------------------------------
  // incrementMessageLeaderWins
  // ---------------------------------------------------------------------------

  const IncrementExpression := "SET messageLeaderWins = if_not_exists(messageLeaderWins, :zero) + :inc"

  /**
   * incrementMessageLeaderWins: one UpdateCommand on TABLE_NAME with the
   * increment expression, `:inc` = 1 and `:zero` = 0 and no attribute-name
   * map; a failure is rethrown unchanged.
   */
  function IncrementMessageLeaderWins(env: Option<string>, userId: string, reply: Result<()>)
    : (c: Call<()>)
    ensures c.request.Update? && c.request.table == TableName(env) && c.request.key == KeyOf(userId)
    ensures c.request.expression == IncrementExpression && c.request.names == None
    ensures c.request.values.Keys == {":inc", ":zero"}
    ensures c.request.values[":inc"] == Int(1) && c.request.values[":zero"] == Int(0)
    ensures c.result == reply
  {
    Call(Update(TableName(env), KeyOf(userId), IncrementExpression, None,
                map[":inc" := Int(1), ":zero" := Int(0)]), reply)
  }

  /**
   * `after` is the number `before` plus one. A JSON number `Num(m, e)` stands
   * for m / 10^e, so this is (ma / 10^ea) == (mb / 10^eb) + 1, cross-multiplied.
   */
  predicate IsSuccessor(after: Value, before: Value)
    requires after.Num? && before.Num?
  {
    after.mantissa * Pow10(before.exponent) == (before.mantissa + Pow10(before.exponent)) * Pow10(after.exponent)
  }

  /** What DynamoDB answers when `+` meets an attribute that is not a number. */
  const OperandTypeMismatch :=
    Fault("ValidationException", "An operand in the update expression has an incorrect data type")

  /**
   * The effect of IncrementExpression on the item stored under the key
   * (`None` when there is none): `if_not_exists` yields the stored counter or
   * `:zero`, to which `:inc` is added. Every other attribute is kept.
   */
  function IncrementEffect(stored: Option<Item>, key: Item): (r: Result<Item>)
    ensures var t := Target(stored, key);
            r.Success? <==> WinsAttribute !in t || t[WinsAttribute].Num?
    ensures var t := Target(stored, key);
            r.Success? ==>
              && r.value.Keys == t.Keys + {WinsAttribute}
              && r.value[WinsAttribute].Num?
              && IsSuccessor(r.value[WinsAttribute], if WinsAttribute in t then t[WinsAttribute] else Int(0))
              && (forall k :: k in t && k != WinsAttribute ==> r.value[k] == t[k])
  {
    var t := Target(stored, key);
    if WinsAttribute !in t then
      Success(t[WinsAttribute := Int(0 + 1)])
    else
      match t[WinsAttribute]
      case Num(m, e) =>
        Success(t[WinsAttribute := Num(m + Pow10(e), e)])
      case _ => Failure(OperandTypeMismatch)
  }

  /** The item after `n` successive increments, starting from `stored`. */
  function IncrementTimes(stored: Option<Item>, key: Item, n: nat): Result<Option<Item>>
    decreases n
  {
    if n == 0 then Success(stored)
    else match IncrementEffect(stored, key)
      case Success(item) => IncrementTimes(Some(item), key, n - 1)
      case Failure(f) => Failure(f)
  }

  /**
   * `n` increments of an integer counter add `n` to it, and change nothing else.
   */
  lemma {:induction false} IncrementsAdd(item: Item, key: Item, count: int, n: nat)
    requires WinsAttribute in item && item[WinsAttribute] == Int(count)
    ensures IncrementTimes(Some(item), key, n) == Success(Some(item[WinsAttribute := Int(count + n)]))
    decreases n
  {
    if n == 0 {
      assert item[WinsAttribute := Int(count + n)] == item;
    } else {
      var next := item[WinsAttribute := Int(count + 1)];
      assert IncrementEffect(Some(item), key) == Success(next);
      IncrementsAdd(next, key, count + 1, n - 1);
      assert next[WinsAttribute := Int(count + 1 + (n - 1))] == item[WinsAttribute := Int(count + n)];
    }
  }

  /**
   * Starting from a user with no record, `n >= 1` increments leave the record
   * `{ DiscordId: userId, messageLeaderWins: n }`.
   */
  lemma CountsFromAbsent(userId: string, n: nat)
    requires n >= 1
    ensures IncrementTimes(None, KeyOf(userId), n) == Success(Some(KeyOf(userId)[WinsAttribute := Int(n)]))
  {
    var first := KeyOf(userId)[WinsAttribute := Int(1)];
    assert IncrementEffect(None, KeyOf(userId)) == Success(first);
    IncrementsAdd(first, KeyOf(userId), 1, n - 1);
    assert first[WinsAttribute := Int(1 + (n - 1))] == KeyOf(userId)[WinsAttribute := Int(n)];
  }

  // ---------------------------------------------------------------------------
  // listUserData
  // ---------------------------------------------------------------------------

  /** One Scan response: its optional `Items` and optional `LastEvaluatedKey`. */
  datatype Page = Page(items: Option<seq<Item>>, lastEvaluatedKey: Option<Item>)

  /** The items a page contributes; a page without `Items` contributes none. */
  function ItemsOf(page: Page): seq<Item> {
    if page.items.Some? then page.items.value else []
  }

  /** A reply after which listUserData sends no further scan: a failure, or a page without cursor. */
  predicate EndsScan(reply: Result<Page>) {
    reply.Failure? || reply.value.lastEvaluatedKey.None?
  }

  /** The backend's replies to successive scans eventually end the loop. */
  predicate ScanEnds(replies: seq<Result<Page>>) {
    exists j :: 0 <= j < |replies| && EndsScan(replies[j])
  }

  /** The index of the reply that ends the loop: the first failure or cursorless page. */
  function FirstEnd(replies: seq<Result<Page>>): (n: nat)
    requires ScanEnds(replies)
    ensures n < |replies| && EndsScan(replies[n])
    ensures forall j :: 0 <= j < n ==> !EndsScan(replies[j])
  {
    if EndsScan(replies[0]) then 0
    else
      ScanEndsTail(replies);
      1 + FirstEnd(replies[1..])
  }

  lemma ScanEndsTail(replies: seq<Result<Page>>)
    requires ScanEnds(replies) && !EndsScan(replies[0])
    ensures ScanEnds(replies[1..])
  {
    var j :| 0 <= j < |replies| && EndsScan(replies[j]);
    assert replies[1..][j - 1] == replies[j];
  }

  /** The items of the first `n` pages, in page order. */
  function Collected(replies: seq<Result<Page>>, n: nat): seq<Item>
    requires n <= |replies| && forall j :: 0 <= j < n ==> replies[j].Success?
  {
    if n == 0 then [] else Collected(replies, n - 1) + ItemsOf(replies[n - 1].value)
  }

  /** An item is collected exactly when one of the first `n` pages holds it. */
  lemma {:induction false} CollectedMembership(replies: seq<Result<Page>>, n: nat, x: Item)
    requires n <= |replies| && forall j :: 0 <= j < n ==> replies[j].Success?
    ensures x in Collected(replies, n) <==> exists j :: 0 <= j < n && x in ItemsOf(replies[j].value)
  {
    if n > 0 {
      CollectedMembership(replies, n - 1, x);
    }
  }

  /** Collecting through the pages is concatenation: the first `m` pages are a prefix of the first `n`. */
  lemma {:induction false} CollectedPrefix(replies: seq<Result<Page>>, m: nat, n: nat)
    requires m <= n <= |replies| && forall j :: 0 <= j < n ==> replies[j].Success?
    ensures Collected(replies, m) <= Collected(replies, n)
    decreases n
  {
    if m < n {
      CollectedPrefix(replies, m, n - 1);
    }
  }

  /**
   * listUserData: scans TABLE_NAME page by page. The first scan has no
   * ExclusiveStartKey and each later one carries the previous page's
   * LastEvaluatedKey; the loop stops after the first page without one, and
   * the result is the items of all pages read, in order. A failing scan is
   * rethrown unchanged and nothing is returned.
   */
  method ListUserData(env: Option<string>, replies: seq<Result<Page>>)
    returns (sent: seq<Request>, r: Result<seq<Item>>)
    requires ScanEnds(replies)
    ensures |sent| == FirstEnd(replies) + 1
    ensures forall j :: 0 <= j < |sent| ==> sent[j].Scan? && sent[j].table == TableName(env)
    ensures sent[0].exclusiveStartKey == None
    ensures forall j :: 0 < j < |sent| ==>
              replies[j - 1].Success? && replies[j - 1].value.lastEvaluatedKey.Some? &&
              sent[j].exclusiveStartKey == replies[j - 1].value.lastEvaluatedKey
    ensures replies[FirstEnd(replies)].Failure? ==> r == Failure(replies[FirstEnd(replies)].fault)
    ensures replies[FirstEnd(replies)].Success? ==> r == Success(Collected(replies, FirstEnd(replies) + 1))
  {
    var table := TableName(env);
    var params := Scan(table, None);
    var allItems: seq<Item> := [];
    var lastEvaluatedKey: Option<Item> := None;
    ghost var n := FirstEnd(replies);
    var i := 0;
    sent := [];
    while true
      invariant 0 <= i <= n
      invariant |sent| == i
      invariant forall j :: 0 <= j < i ==> sent[j].Scan? && sent[j].table == table
      invariant i > 0 ==> sent[0].exclusiveStartKey == None
      invariant forall j :: 0 < j < i ==> sent[j].exclusiveStartKey == replies[j - 1].value.lastEvaluatedKey
      invariant lastEvaluatedKey == if i == 0 then None else replies[i - 1].value.lastEvaluatedKey
      invariant params.Scan? && params.table == table && (i == 0 ==> params.exclusiveStartKey == None)
      invariant allItems == Collected(replies, i)
      decreases n - i
    {
      if lastEvaluatedKey.Some? {
        params := params.(exclusiveStartKey := lastEvaluatedKey);
      }
      sent := sent + [params];
      var reply := replies[i];
      if reply.Failure? {
        r := Failure(reply.fault);
        return;
      }
      var data := reply.value;
      if data.items.Some? {
        allItems := allItems + data.items.value;
      }
      lastEvaluatedKey := data.lastEvaluatedKey;
      i := i + 1;
      if lastEvaluatedKey.None? {
        assert i == n + 1 && allItems == Collected(replies, i);
        break;
      }
    }
    r := Success(allItems);
  }
}
