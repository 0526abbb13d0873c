/** The strict JSON walk over a token stream: one value, bounded nesting, no repeated
    key in any object (section 4 of RFC 8259). The tokenizer is given; it reports a
    closing bracket only where the innermost open container allows it. */
module JsonWalk {
  import opened Wrappers

  datatype Token = OpenObject | CloseObject | OpenArray | CloseArray | Str(s: string) | Scalar(text: string)

  datatype FieldError = DepthExceeded | Malformed | DuplicateKey(key: string)

  /** How many tokens a walk leaves, or why it stopped. */
  type Walked = Result<seq<Token>, FieldError>

  predicate TooDeep(maxDepth: int, depth: nat) {
    maxDepth > 0 && depth > maxDepth
  }

  /** Another element follows in the innermost container. */
  predicate More(ts: seq<Token>) {
    ts != [] && !ts[0].CloseObject? && !ts[0].CloseArray?
  }

  function Walk(ts: seq<Token>, depth: nat, maxDepth: int): (r: Walked)
    ensures r.Ok? ==> |r.value| < |ts|
    decreases |ts|, 1
  {
    if TooDeep(maxDepth, depth) then Err(DepthExceeded)
    else if ts == [] then Err(Malformed)
    else
      match ts[0]
      case OpenObject => WalkMembers(ts[1..], {}, depth, maxDepth)
      case OpenArray => WalkElements(ts[1..], depth, maxDepth)
      case CloseObject => Err(Malformed)
      case CloseArray => Err(Malformed)
      case _ => Ok(ts[1..])
  }

  function WalkMembers(ts: seq<Token>, seen: set<string>, depth: nat, maxDepth: int): (r: Walked)
    ensures r.Ok? ==> |r.value| < |ts|
    decreases |ts|, 0
  {
    if More(ts) then
      if !ts[0].Str? then Err(Malformed)
      else if ts[0].s in seen then Err(DuplicateKey(ts[0].s))
      else
        match Walk(ts[1..], depth + 1, maxDepth)
        case Err(e) => Err(e)
        case Ok(rest) => WalkMembers(rest, seen + {ts[0].s}, depth, maxDepth)
    else if ts == [] || !ts[0].CloseObject? then Err(Malformed)
    else Ok(ts[1..])
  }

  function WalkElements(ts: seq<Token>, depth: nat, maxDepth: int): (r: Walked)
    ensures r.Ok? ==> |r.value| < |ts|
    decreases |ts|, 2
  {
    if More(ts) then
      match Walk(ts, depth + 1, maxDepth)
      case Err(e) => Err(e)
      case Ok(rest) => WalkElements(rest, depth, maxDepth)
    else if ts == [] || !ts[0].CloseArray? then Err(Malformed)
    else Ok(ts[1..])
  }

  // ------------------------------------------------------------------ decoder

  class Decoder {
    const tokens: seq<Token>
    var pos: nat

    ghost predicate Valid()
      reads this
    {
      pos <= |tokens|
    }

    ghost function Rest(): seq<Token>
      requires Valid()
      reads this
    {
      tokens[pos..]
    }

    constructor (tokens: seq<Token>)
      ensures Valid() && Rest() == tokens
    {
      this.tokens, pos := tokens, 0;
    }

    method HasMore() returns (more: bool)
      requires Valid()
      ensures more == More(Rest())
    {
      more := pos < |tokens| && !tokens[pos].CloseObject? && !tokens[pos].CloseArray?;
    }

    method Next() returns (tok: Option<Token>)
      requires Valid()
      modifies this`pos
      ensures Valid() && tok == (if old(Rest()) == [] then None else Some(old(Rest())[0]))
      ensures Rest() == if old(Rest()) == [] then [] else old(Rest())[1..]
    {
      if pos == |tokens| {
        return None;
      }
      tok := Some(tokens[pos]);
      pos := pos + 1;
    }
  }

  /** The error a walk ended with, if any, and what it left in the decoder. */
  predicate Agrees(left: seq<Token>, err: Option<FieldError>, walked: Walked) {
    match walked
    case Ok(rest) => err.None? && left == rest
    case Err(e) => err == Some(e)
  }

  method WalkValue(dec: Decoder, depth: nat, maxDepth: int) returns (err: Option<FieldError>)
    requires dec.Valid()
    modifies dec`pos
    ensures dec.Valid() && Agrees(dec.Rest(), err, Walk(old(dec.Rest()), depth, maxDepth))
    decreases |dec.Rest()|, 1
  {
    if maxDepth > 0 && depth > maxDepth {
      return Some(DepthExceeded);
    }
    var tok := dec.Next();
    if tok.None? {
      return Some(Malformed);
    }
    match tok.value {
      case OpenObject => err := WalkObject(dec, depth, maxDepth);
      case OpenArray => err := WalkArray(dec, depth, maxDepth);
      case CloseObject => err := Some(Malformed);
      case CloseArray => err := Some(Malformed);
      case _ => err := None;
    }
  }

  method WalkObject(dec: Decoder, depth: nat, maxDepth: int) returns (err: Option<FieldError>)
    requires dec.Valid()
    modifies dec`pos
    ensures dec.Valid() && Agrees(dec.Rest(), err, WalkMembers(old(dec.Rest()), {}, depth, maxDepth))
    decreases |dec.Rest()|, 0
  {
    var seen: set<string> := {};
    var more := dec.HasMore();
    while more
      invariant dec.Valid() && more == More(dec.Rest()) && |dec.Rest()| <= |old(dec.Rest())|
      invariant WalkMembers(old(dec.Rest()), {}, depth, maxDepth) == WalkMembers(dec.Rest(), seen, depth, maxDepth)
      decreases |dec.Rest()|
    {
      var tok := dec.Next();
      if !tok.value.Str? {
        return Some(Malformed);
      }
      var key := tok.value.s;
      if key in seen {
        return Some(DuplicateKey(key));
      }
      seen := seen + {key};
      err := WalkValue(dec, depth + 1, maxDepth);
      if err.Some? {
        return;
      }
      more := dec.HasMore();
    }
    var tok := dec.Next();
    err := if tok == Some(CloseObject) then None else Some(Malformed);
  }

  method WalkArray(dec: Decoder, depth: nat, maxDepth: int) returns (err: Option<FieldError>)
    requires dec.Valid()
    modifies dec`pos
    ensures dec.Valid() && Agrees(dec.Rest(), err, WalkElements(old(dec.Rest()), depth, maxDepth))
    decreases |dec.Rest()|, 2
  {
    var more := dec.HasMore();
    while more
      invariant dec.Valid() && more == More(dec.Rest()) && |dec.Rest()| <= |old(dec.Rest())|
      invariant WalkElements(old(dec.Rest()), depth, maxDepth) == WalkElements(dec.Rest(), depth, maxDepth)
      decreases |dec.Rest()|
    {
      err := WalkValue(dec, depth + 1, maxDepth);
      if err.Some? {
        return;
      }
      more := dec.HasMore();
    }
    var tok := dec.Next();
    err := if tok == Some(CloseArray) then None else Some(Malformed);
  }

  // --------------------------------------------------------------------- trees

  datatype Json = Leaf(token: Token) | Arr(items: Items) | Obj(members: Members)
  datatype Items = NoItems | Item(head: Json, tail: Items)
  datatype Members = NoMembers | Member(key: string, value: Json, rest: Members)

  predicate IsTree(j: Json) {
    match j
    case Leaf(t) => t.Str? || t.Scalar?
    case Arr(items) => AreTrees(items)
    case Obj(members) => AreMembers(members)
  }

  predicate AreTrees(items: Items) {
    match items
    case NoItems => true
    case Item(head, tail) => IsTree(head) && AreTrees(tail)
  }

  predicate AreMembers(members: Members) {
    match members
    case NoMembers => true
    case Member(_, value, rest) => IsTree(value) && AreMembers(rest)
  }

  /** The token text of a tree. */
  function Tokens(j: Json): seq<Token> {
    match j
    case Leaf(t) => [t]
    case Arr(items) => [OpenArray] + ItemTokens(items) + [CloseArray]
    case Obj(members) => [OpenObject] + MemberTokens(members) + [CloseObject]
  }

  function ItemTokens(items: Items): seq<Token> {
    match items
    case NoItems => []
    case Item(head, tail) => Tokens(head) + ItemTokens(tail)
  }

  function MemberTokens(members: Members): seq<Token> {
    match members
    case NoMembers => []
    case Member(key, value, rest) => [Str(key)] + Tokens(value) + MemberTokens(rest)
  }

  function Max(a: int, b: int): int { if a < b then b else a }

  /** Containers around the innermost value, or -1 when there is no value. */
  function Nesting(j: Json): (n: int)
    ensures n >= 0
  {
    match j
    case Leaf(_) => 0
    case Arr(items) => 1 + ItemNesting(items)
    case Obj(members) => 1 + MemberNesting(members)
  }

  function ItemNesting(items: Items): (n: int)
    ensures n >= -1
  {
    match items
    case NoItems => -1
    case Item(head, tail) => Max(Nesting(head), ItemNesting(tail))
  }

  function MemberNesting(members: Members): (n: int)
    ensures n >= -1
  {
    match members
    case NoMembers => -1
    case Member(_, value, rest) => Max(Nesting(value), MemberNesting(rest))
  }

  function Keys(members: Members): set<string> {
    match members
    case NoMembers => {}
    case Member(key, _, rest) => {key} + Keys(rest)
  }

  /** No object at any level repeats a key. */
  predicate UniqueKeys(j: Json) {
    match j
    case Leaf(_) => true
    case Arr(items) => UniqueKeysInItems(items)
    case Obj(members) => UniqueKeysInMembers(members)
  }

  predicate UniqueKeysInItems(items: Items) {
    match items
    case NoItems => true
    case Item(head, tail) => UniqueKeys(head) && UniqueKeysInItems(tail)
  }

  predicate UniqueKeysInMembers(members: Members) {
    match members
    case NoMembers => true
    case Member(key, value, rest) => key !in Keys(rest) && UniqueKeys(value) && UniqueKeysInMembers(rest)
  }

  /** Some object, at any level, holds the key twice. */
  predicate Repeats(j: Json, key: string) {
    match j
    case Leaf(_) => false
    case Arr(items) => ItemsRepeat(items, key)
    case Obj(members) => MembersRepeat(members, key)
  }

  predicate ItemsRepeat(items: Items, key: string) {
    match items
    case NoItems => false
    case Item(head, tail) => Repeats(head, key) || ItemsRepeat(tail, key)
  }

  predicate MembersRepeat(members: Members, key: string) {
    match members
    case NoMembers => false
    case Member(k, value, rest) => (k == key && key in Keys(rest)) || Repeats(value, key) || MembersRepeat(rest, key)
  }

  predicate WithinDepth(maxDepth: int, depth: int) {
    maxDepth > 0 ==> depth <= maxDepth
  }

  /** On a tree's tokens, whatever follows them, the walk consumes exactly the tree when
      it accepts; it accepts if and only if the tree is not too deep and repeats no key,
      and otherwise says which of the two is wrong, and which key is repeated. */
  lemma {:induction false} WalksTree(j: Json, more: seq<Token>, depth: nat, maxDepth: int)
    requires IsTree(j)
    ensures var r := Walk(Tokens(j) + more, depth, maxDepth);
            && (r.Ok? ==> r.value == more)
            && (r.Ok? <==> WithinDepth(maxDepth, depth + Nesting(j)) && UniqueKeys(j))
            && (r.Err? ==> r.error.DepthExceeded? || r.error.DuplicateKey?)
            && (r == Err(DepthExceeded) ==> !WithinDepth(maxDepth, depth + Nesting(j)))
            && (r.Err? && r.error.DuplicateKey? ==> !UniqueKeys(j) && Repeats(j, r.error.key))
    decreases j
  {
    var ts := Tokens(j) + more;
    if !TooDeep(maxDepth, depth) {
      match j
      case Leaf(t) =>
        assert ts[1..] == more;
      case Arr(items) =>
        assert ts[0] == OpenArray && ts[1..] == ItemTokens(items) + ([CloseArray] + more);
        WalksItems(items, more, depth, maxDepth);
      case Obj(members) =>
        assert ts[0] == OpenObject && ts[1..] == MemberTokens(members) + ([CloseObject] + more);
        WalksMembers(members, {}, more, depth, maxDepth);
    }
  }

  lemma {:induction false} FirstToken(j: Json, more: seq<Token>)
    requires IsTree(j)
    ensures More(Tokens(j) + more)
  {
  }

  lemma {:induction false} WalksItems(items: Items, more: seq<Token>, depth: nat, maxDepth: int)
    requires AreTrees(items) && !TooDeep(maxDepth, depth)
    ensures var r := WalkElements(ItemTokens(items) + ([CloseArray] + more), depth, maxDepth);
            && (r.Ok? ==> r.value == more)
            && (r.Ok? <==> WithinDepth(maxDepth, depth + 1 + ItemNesting(items)) && UniqueKeysInItems(items))
            && (r.Err? ==> r.error.DepthExceeded? || r.error.DuplicateKey?)
            && (r == Err(DepthExceeded) ==> !WithinDepth(maxDepth, depth + 1 + ItemNesting(items)))
            && (r.Err? && r.error.DuplicateKey? ==> !UniqueKeysInItems(items) && ItemsRepeat(items, r.error.key))
    decreases items
  {
    var ts := ItemTokens(items) + ([CloseArray] + more);
    match items
    case NoItems =>
      assert ts[1..] == more;
    case Item(head, tail) =>
      var after := ItemTokens(tail) + ([CloseArray] + more);
      assert ts == Tokens(head) + after;
      FirstToken(head, after);
      WalksTree(head, after, depth + 1, maxDepth);
      WalksItems(tail, more, depth, maxDepth);
  }

  lemma {:induction false} WalksMembers(members: Members, seen: set<string>, more: seq<Token>, depth: nat, maxDepth: int)
    requires AreMembers(members) && !TooDeep(maxDepth, depth)
    ensures var r := WalkMembers(MemberTokens(members) + ([CloseObject] + more), seen, depth, maxDepth);
            && (r.Ok? ==> r.value == more)
            && (r.Ok? <==> WithinDepth(maxDepth, depth + 1 + MemberNesting(members))
                           && UniqueKeysInMembers(members) && seen !! Keys(members))
            && (r.Err? ==> r.error.DepthExceeded? || r.error.DuplicateKey?)
            && (r == Err(DepthExceeded) ==> !WithinDepth(maxDepth, depth + 1 + MemberNesting(members)))
            && (r.Err? && r.error.DuplicateKey? ==>
                  && !(UniqueKeysInMembers(members) && seen !! Keys(members))
                  && (MembersRepeat(members, r.error.key) || (r.error.key in seen && r.error.key in Keys(members))))
    decreases members
  {
    hide Walk, Tokens, IsTree, Nesting, Repeats, UniqueKeys;
    var ts := MemberTokens(members) + ([CloseObject] + more);
    match members
    case NoMembers =>
      assert ts[1..] == more;
    case Member(key, value, rest) =>
      var after := MemberTokens(rest) + ([CloseObject] + more);
      assert ts[0] == Str(key) && ts[1..] == Tokens(value) + after;
      WalksTree(value, after, depth + 1, maxDepth);
      WalksMembers(rest, seen + {key}, more, depth, maxDepth);
  }

  /** Whatever tokens the walk accepts are a tree's, and no others were consumed. */
  lemma {:induction false} AcceptsOnlyTrees(ts: seq<Token>, depth: nat, maxDepth: int) returns (j: Json)
    requires Walk(ts, depth, maxDepth).Ok?
    ensures IsTree(j) && ts == Tokens(j) + Walk(ts, depth, maxDepth).value
    decreases |ts|, 1
  {
    hide WalkMembers, WalkElements, ItemTokens, MemberTokens, AreMembers, AreTrees;
    var rest := Walk(ts, depth, maxDepth).value;
    assert ts == [ts[0]] + ts[1..];
    if ts[0].OpenObject? {
      var members := AcceptsOnlyMembers(ts[1..], {}, depth, maxDepth);
      j := Obj(members);
      assert Tokens(j) + rest == [OpenObject] + (MemberTokens(members) + ([CloseObject] + rest));
    } else if ts[0].OpenArray? {
      var items := AcceptsOnlyItems(ts[1..], depth, maxDepth);
      j := Arr(items);
      assert Tokens(j) + rest == [OpenArray] + (ItemTokens(items) + ([CloseArray] + rest));
    } else {
      j := Leaf(ts[0]);
    }
  }

  lemma {:induction false} AcceptsOnlyItems(ts: seq<Token>, depth: nat, maxDepth: int) returns (items: Items)
    requires WalkElements(ts, depth, maxDepth).Ok?
    ensures AreTrees(items) && ts == ItemTokens(items) + ([CloseArray] + WalkElements(ts, depth, maxDepth).value)
    decreases |ts|, 2
  {
    hide Walk, Tokens, IsTree;
    if More(ts) {
      var head := AcceptsOnlyTrees(ts, depth + 1, maxDepth);
      var tail := AcceptsOnlyItems(Walk(ts, depth + 1, maxDepth).value, depth, maxDepth);
      items := Item(head, tail);
      var left := [CloseArray] + WalkElements(ts, depth, maxDepth).value;
      assert ItemTokens(items) + left == Tokens(head) + (ItemTokens(tail) + left);
    } else {
      items := NoItems;
      assert ts == [ts[0]] + ts[1..];
    }
  }

  lemma {:induction false} AcceptsOnlyMembers(ts: seq<Token>, seen: set<string>, depth: nat, maxDepth: int) returns (members: Members)
    requires WalkMembers(ts, seen, depth, maxDepth).Ok?
    ensures AreMembers(members) && ts == MemberTokens(members) + ([CloseObject] + WalkMembers(ts, seen, depth, maxDepth).value)
    decreases |ts|, 0
  {
    hide Walk, Tokens, IsTree;
    if More(ts) {
      var value := AcceptsOnlyTrees(ts[1..], depth + 1, maxDepth);
      var rest := AcceptsOnlyMembers(Walk(ts[1..], depth + 1, maxDepth).value, seen + {ts[0].s}, depth, maxDepth);
      members := Member(ts[0].s, value, rest);
      var left := [CloseObject] + WalkMembers(ts, seen, depth, maxDepth).value;
      assert MemberTokens(members) + left == [ts[0]] + (Tokens(value) + (MemberTokens(rest) + left));
      assert ts == [ts[0]] + ts[1..];
    } else {
      members := NoMembers;
      assert ts == [ts[0]] + ts[1..];
    }
  }

  // -------------------------------------------------------------------- errors

  /** How many containers the tokens leave open. */
  function Level(ts: seq<Token>): int {
    if ts == [] then 0
    else (if ts[0].OpenObject? || ts[0].OpenArray? then 1 else if ts[0].CloseObject? || ts[0].CloseArray? then -1 else 0) + Level(ts[1..])
  }

  lemma {:induction false} LevelAdds(a: seq<Token>, b: seq<Token>)
    ensures Level(a + b) == Level(a) + Level(b)
  {
    if a == [] {
      assert a + b == b;
    } else {
      LevelAdds(a[1..], b);
      assert (a + b)[1..] == a[1..] + b;
    }
  }

  lemma {:induction false} TreeIsLevel(j: Json)
    requires IsTree(j)
    ensures Level(Tokens(j)) == 0
    decreases j
  {
    match j
    case Leaf(_) =>
    case Arr(items) =>
      ItemsAreLevel(items);
      LevelAdds([OpenArray], ItemTokens(items));
      LevelAdds([OpenArray] + ItemTokens(items), [CloseArray]);
    case Obj(members) =>
      MembersAreLevel(members);
      LevelAdds([OpenObject], MemberTokens(members));
      LevelAdds([OpenObject] + MemberTokens(members), [CloseObject]);
  }

  lemma {:induction false} ItemsAreLevel(items: Items)
    requires AreTrees(items)
    ensures Level(ItemTokens(items)) == 0
    decreases items
  {
    if items.Item? {
      TreeIsLevel(items.head);
      ItemsAreLevel(items.tail);
      LevelAdds(Tokens(items.head), ItemTokens(items.tail));
    }
  }

  lemma {:induction false} MembersAreLevel(members: Members)
    requires AreMembers(members)
    ensures Level(MemberTokens(members)) == 0
    decreases members
  {
    if members.Member? {
      TreeIsLevel(members.value);
      MembersAreLevel(members.rest);
      LevelAdds([Str(members.key)], Tokens(members.value));
      LevelAdds([Str(members.key)] + Tokens(members.value), MemberTokens(members.rest));
    }
  }

  /** At the token after the first `n`, more containers are open than are allowed. */
  predicate DeepAt(ts: seq<Token>, n: nat, depth: int, maxDepth: int) {
    n <= |ts| && maxDepth > 0 && depth + Level(ts[..n]) > maxDepth
  }

  lemma DeepLater(front: seq<Token>, ts: seq<Token>, n: nat, depth: int, maxDepth: int)
    requires DeepAt(ts, n, depth + Level(front), maxDepth)
    ensures DeepAt(front + ts, |front| + n, depth, maxDepth)
  {
    LevelAdds(front, ts[..n]);
    assert (front + ts)[..|front| + n] == front + ts[..n];
  }

  /** Whatever the tokens are, nesting is reported only where it is exceeded. */
  lemma {:induction false} DepthIsExceeded(ts: seq<Token>, depth: nat, maxDepth: int) returns (n: nat)
    requires Walk(ts, depth, maxDepth) == Err(DepthExceeded)
    ensures DeepAt(ts, n, depth, maxDepth)
    decreases |ts|, 1
  {
    hide WalkMembers, WalkElements;
    if TooDeep(maxDepth, depth) {
      n := 0;
    } else {
      var front := ts[..1];
      assert front == [ts[0]] && ts == front + ts[1..];
      if ts[0].OpenObject? {
        n := DepthInMembers(ts[1..], {}, depth, maxDepth);
      } else {
        n := DepthInElements(ts[1..], depth, maxDepth);
      }
      assert Level(front) == 1 + Level([]);
      DeepLater(front, ts[1..], n, depth, maxDepth);
      n := 1 + n;
    }
  }

  /** The tokens of a value the walk went through are level. */
  lemma WalkedIsLevel(ts: seq<Token>, depth: nat, maxDepth: int)
    requires Walk(ts, depth, maxDepth).Ok?
    ensures var rest := Walk(ts, depth, maxDepth).value;
            |rest| < |ts| && ts == ts[..|ts| - |rest|] + rest && Level(ts[..|ts| - |rest|]) == 0
  {
    var j := AcceptsOnlyTrees(ts, depth, maxDepth);
    TreeIsLevel(j);
    assert ts[..|Tokens(j)|] == Tokens(j);
  }

  lemma {:induction false} DepthInElements(ts: seq<Token>, depth: nat, maxDepth: int) returns (n: nat)
    requires WalkElements(ts, depth, maxDepth) == Err(DepthExceeded)
    ensures DeepAt(ts, n, depth + 1, maxDepth)
    decreases |ts|, 2
  {
    hide Walk, Level;
    if Walk(ts, depth + 1, maxDepth).Err? {
      n := DepthIsExceeded(ts, depth + 1, maxDepth);
    } else {
      WalkedIsLevel(ts, depth + 1, maxDepth);
      var rest := Walk(ts, depth + 1, maxDepth).value;
      var front := ts[..|ts| - |rest|];
      n := DepthInElements(rest, depth, maxDepth);
      DeepLater(front, rest, n, depth + 1, maxDepth);
      n := |front| + n;
    }
  }

  lemma MemberIsLevel(ts: seq<Token>, depth: nat, maxDepth: int)
    requires ts != [] && ts[0].Str? && Walk(ts[1..], depth, maxDepth).Ok?
    ensures var rest := Walk(ts[1..], depth, maxDepth).value;
            |rest| < |ts| && ts == ts[..|ts| - |rest|] + rest && Level(ts[..|ts| - |rest|]) == 0
  {
    WalkedIsLevel(ts[1..], depth, maxDepth);
    hide Walk;
    var rest := Walk(ts[1..], depth, maxDepth).value;
    var value := ts[1..][..|ts| - 1 - |rest|];
    assert ts[..|ts| - |rest|] == [ts[0]] + value;
    assert Level([ts[0]]) == Level([]) == 0;
    LevelAdds([ts[0]], value);
  }

  lemma {:induction false} DepthInMembers(ts: seq<Token>, seen: set<string>, depth: nat, maxDepth: int) returns (n: nat)
    requires WalkMembers(ts, seen, depth, maxDepth) == Err(DepthExceeded)
    ensures DeepAt(ts, n, depth + 1, maxDepth)
    decreases |ts|, 0
  {
    hide Walk, DeepAt;
    if Walk(ts[1..], depth + 1, maxDepth).Err? {
      n := DepthIsExceeded(ts[1..], depth + 1, maxDepth);
      assert Level([ts[0]]) == Level([]) == 0;
      DeepLater([ts[0]], ts[1..], n, depth + 1, maxDepth);
      assert [ts[0]] + ts[1..] == ts;
      n := 1 + n;
    } else {
      MemberIsLevel(ts, depth + 1, maxDepth);
      var rest := Walk(ts[1..], depth + 1, maxDepth).value;
      n := DepthInMembers(rest, seen + {ts[0].s}, depth, maxDepth);
      hide WalkMembers, Level;
      DeepLater(ts[..|ts| - |rest|], rest, n, depth + 1, maxDepth);
      n := |ts| - |rest| + n;
    }
  }

  /** And a repeated key only where it stands twice. */
  lemma {:induction false} KeyStandsTwice(ts: seq<Token>, depth: nat, maxDepth: int)
    requires Walk(ts, depth, maxDepth).Err? && Walk(ts, depth, maxDepth).error.DuplicateKey?
    ensures multiset(ts)[Str(Walk(ts, depth, maxDepth).error.key)] >= 2
    decreases |ts|, 1
  {
    hide WalkMembers, WalkElements;
    assert ts == [ts[0]] + ts[1..];
    if ts[0].OpenObject? {
      KeyAmongMembers(ts[1..], {}, depth, maxDepth);
    } else {
      KeyAmongElements(ts[1..], depth, maxDepth);
    }
  }

  lemma {:induction false} KeyAmongElements(ts: seq<Token>, depth: nat, maxDepth: int)
    requires WalkElements(ts, depth, maxDepth).Err? && WalkElements(ts, depth, maxDepth).error.DuplicateKey?
    ensures multiset(ts)[Str(WalkElements(ts, depth, maxDepth).error.key)] >= 2
    decreases |ts|, 2
  {
    hide Walk;
    if Walk(ts, depth + 1, maxDepth).Err? {
      KeyStandsTwice(ts, depth + 1, maxDepth);
    } else {
      WalkedIsLevel(ts, depth + 1, maxDepth);
      var rest := Walk(ts, depth + 1, maxDepth).value;
      assert ts == ts[..|ts| - |rest|] + rest;
      KeyAmongElements(rest, depth, maxDepth);
    }
  }

  lemma {:induction false} KeyAmongMembers(ts: seq<Token>, seen: set<string>, depth: nat, maxDepth: int)
    requires WalkMembers(ts, seen, depth, maxDepth).Err? && WalkMembers(ts, seen, depth, maxDepth).error.DuplicateKey?
    ensures var key := WalkMembers(ts, seen, depth, maxDepth).error.key;
            multiset(ts)[Str(key)] >= if key in seen then 1 else 2
    decreases |ts|, 0
  {
    hide Walk;
    var tail := ts[1..];
    assert ts == [ts[0]] + tail;
    if ts[0].s !in seen {
      if Walk(tail, depth + 1, maxDepth).Err? {
        KeyStandsTwice(tail, depth + 1, maxDepth);
      } else {
        WalkedIsLevel(tail, depth + 1, maxDepth);
        var rest := Walk(tail, depth + 1, maxDepth).value;
        assert tail == tail[..|tail| - |rest|] + rest;
        KeyAmongMembers(rest, seen + {ts[0].s}, depth, maxDepth);
      }
    }
  }

  /** The whole check on a document: it passes exactly when the document begins with a
      tree that is not too deep and repeats no key. */
  lemma AcceptsExactly(ts: seq<Token>, maxDepth: int)
    ensures Walk(ts, 0, maxDepth).Ok?
       <==> exists j: Json, more: seq<Token> ::
              IsTree(j) && ts == Tokens(j) + more && WithinDepth(maxDepth, Nesting(j)) && UniqueKeys(j)
  {
    if Walk(ts, 0, maxDepth).Ok? {
      var j := AcceptsOnlyTrees(ts, 0, maxDepth);
      WalksTree(j, Walk(ts, 0, maxDepth).value, 0, maxDepth);
    }
    if j: Json, more: seq<Token> :| IsTree(j) && ts == Tokens(j) + more && WithinDepth(maxDepth, Nesting(j)) && UniqueKeys(j) {
      WalksTree(j, more, 0, maxDepth);
    }
  }
}
