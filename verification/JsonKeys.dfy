// The duplicate-key scan over the tokens of a JSON decoder.

module JsonKeys {
  import opened Options

  // Separators and colons are the decoder's own business.
  datatype Token = OpenObject | CloseObject | OpenArray | CloseArray | Text(s: string) | Scalar(lexeme: string)

  // Section 4 of RFC 8259: an object is a collection of name/value pairs.
  datatype Value = Atom(token: Token) | Object(members: seq<Member>) | Array(items: seq<Value>)

  datatype Member = Member(name: string, value: Value)

  predicate WellFormed(v: Value) {
    match v
    case Atom(token) => token.Text? || token.Scalar?
    case Object(members) => forall m <- members :: WellFormed(m.value)
    case Array(items) => forall item <- items :: WellFormed(item)
  }

  // No object at any depth repeats a member name.
  predicate DistinctNames(v: Value) {
    match v
    case Atom(_) => true
    case Object(members) => (forall i, j :: 0 <= i < j < |members| ==> members[i].name != members[j].name)
                            && forall m <- members :: DistinctNames(m.value)
    case Array(items) => forall item <- items :: DistinctNames(item)
  }

  function Tokens(v: Value): (r: seq<Token>)
    ensures r != []
    ensures WellFormed(v) ==> !r[0].CloseObject? && !r[0].CloseArray?
  {
    match v
    case Atom(token) => [token]
    case Object(members) => [OpenObject] + MemberTokens(members) + [CloseObject]
    case Array(items) => [OpenArray] + ItemTokens(items) + [CloseArray]
  }

  function MemberTokens(members: seq<Member>): seq<Token> {
    if members == [] then [] else [Text(members[0].name)] + Tokens(members[0].value) + MemberTokens(members[1..])
  }

  function ItemTokens(items: seq<Value>): seq<Token> {
    if items == [] then [] else Tokens(items[0]) + ItemTokens(items[1..])
  }

  // --- What a scan leaves of a stream ---

  // The stream after one value, or None when the scan refuses it.
  function Rest(ts: seq<Token>): (r: Option<seq<Token>>)
    ensures r.Some? ==> |r.value| < |ts|
    decreases |ts|, 0
  {
    if ts == [] then None
    else match ts[0]
      case Text(_) => Some(ts[1..])
      case Scalar(_) => Some(ts[1..])
      case OpenObject => AfterMembers(ts[1..], {})
      case OpenArray => AfterItems(ts[1..])
      case CloseObject => None
      case CloseArray => None
  }

  function AfterMembers(ts: seq<Token>, seen: set<string>): (r: Option<seq<Token>>)
    ensures r.Some? ==> |r.value| < |ts|
    decreases |ts|, 1
  {
    if ts == [] || ts[0].CloseArray? then None
    else if ts[0].CloseObject? then Some(ts[1..])
    else if !ts[0].Text? || ts[0].s in seen then None
    else match Rest(ts[1..])
      case None => None
      case Some(rest) => AfterMembers(rest, seen + {ts[0].s})
  }

  function AfterItems(ts: seq<Token>): (r: Option<seq<Token>>)
    ensures r.Some? ==> |r.value| < |ts|
    decreases |ts|, 1
  {
    if ts == [] || ts[0].CloseObject? then None
    else if ts[0].CloseArray? then Some(ts[1..])
    else match Rest(ts)
      case None => None
      case Some(rest) => AfterItems(rest)
  }

  // --- The scan agrees with the grammar ---

  predicate FreshNames(members: seq<Member>, seen: set<string>) {
    && (forall m <- members :: m.name !in seen)
    && (forall i, j :: 0 <= i < j < |members| ==> members[i].name != members[j].name)
    && (forall m <- members :: DistinctNames(m.value))
  }

  /** Scanning a value's tokens gets past exactly that value, if no object in it repeats a
      name; otherwise the scan refuses, whatever follows. */
  lemma {:induction false} ValueIsScanned(v: Value, rest: seq<Token>)
    requires WellFormed(v)
    ensures Rest(Tokens(v) + rest) == if DistinctNames(v) then Some(rest) else None
    decreases v, 1
  {
    var ts := Tokens(v) + rest;
    match v
    case Atom(token) =>
      assert ts[1..] == rest;
    case Object(members) =>
      assert ts[1..] == MemberTokens(members) + ([CloseObject] + rest);
      MembersAreScanned(members, {}, rest);
    case Array(items) =>
      assert ts[1..] == ItemTokens(items) + ([CloseArray] + rest);
      ItemsAreScanned(items, rest);
  }

  lemma {:induction false} MembersAreScanned(members: seq<Member>, seen: set<string>, rest: seq<Token>)
    requires forall m <- members :: WellFormed(m.value)
    ensures AfterMembers(MemberTokens(members) + ([CloseObject] + rest), seen)
            == if FreshNames(members, seen) then Some(rest) else None
    decreases members, 0
  {
    var ts := MemberTokens(members) + ([CloseObject] + rest);
    if members == [] {
      assert ts == [CloseObject] + rest;
    } else {
      var first, others := members[0], members[1..];
      var more := MemberTokens(others) + ([CloseObject] + rest);
      assert ts[0] == Text(first.name) && ts[1..] == Tokens(first.value) + more;
      assert first in members && forall m <- others :: m in members;
      ValueIsScanned(first.value, more);
      MembersAreScanned(others, seen + {first.name}, rest);
      FreshNamesOfMore(members, seen);
    }
  }

  lemma FreshNamesOfMore(members: seq<Member>, seen: set<string>)
    requires members != []
    ensures FreshNames(members, seen) <==>
            members[0].name !in seen && DistinctNames(members[0].value) && FreshNames(members[1..], seen + {members[0].name})
  {
    var first, others := members[0], members[1..];
    assert first in members;
    assert forall m <- others :: m in members;
    assert forall m <- members :: m == first || m in others;
    if FreshNames(members, seen) {
      forall m <- others
        ensures m.name != first.name
      {
        var i :| 0 <= i < |others| && others[i] == m;
        assert members[i + 1] == m;
      }
    }
    if first.name !in seen && FreshNames(others, seen + {first.name}) {
      forall i, j | 0 <= i < j < |members|
        ensures members[i].name != members[j].name
      {
        assert members[j] == others[j - 1] && others[j - 1] in others;
        if i > 0 { assert members[i] == others[i - 1]; }
      }
    }
  }

  lemma {:induction false} ItemsAreScanned(items: seq<Value>, rest: seq<Token>)
    requires forall item <- items :: WellFormed(item)
    ensures AfterItems(ItemTokens(items) + ([CloseArray] + rest))
            == if forall item <- items :: DistinctNames(item) then Some(rest) else None
    decreases items, 0
  {
    var ts := ItemTokens(items) + ([CloseArray] + rest);
    if items == [] {
      assert ts == [CloseArray] + rest;
    } else {
      var first, others := items[0], items[1..];
      var more := ItemTokens(others) + ([CloseArray] + rest);
      assert ts == Tokens(first) + more;
      assert first in items && (forall item <- others :: item in items) && (forall item <- items :: item == first || item in others);
      ValueIsScanned(first, more);
      ItemsAreScanned(others, rest);
      assert ts[0] == Tokens(first)[0];
    }
  }

  /** Whatever the scan gets past is the tokens of one well-formed value without a repeated
      name. */
  lemma {:induction false} OnlyValuesAreScanned(ts: seq<Token>) returns (v: Value)
    requires Rest(ts).Some?
    ensures WellFormed(v) && DistinctNames(v) && ts == Tokens(v) + Rest(ts).value
    decreases |ts|, 0
  {
    var rest := Rest(ts).value;
    match ts[0]
    case Text(_) =>
      v := Atom(ts[0]);
      assert ts == [ts[0]] + rest;
    case Scalar(_) =>
      v := Atom(ts[0]);
      assert ts == [ts[0]] + rest;
    case OpenObject =>
      var members := OnlyMembersAreScanned(ts[1..], {});
      v := Object(members);
      assert ts == [OpenObject] + ts[1..];
    case OpenArray =>
      var items := OnlyItemsAreScanned(ts[1..]);
      v := Array(items);
      assert ts == [OpenArray] + ts[1..];
  }

  lemma MemberInFront(m: Member, others: seq<Member>, seen: set<string>)
    requires m.name !in seen && WellFormed(m.value) && DistinctNames(m.value) && FreshNames(others, seen + {m.name})
    requires forall n <- others :: WellFormed(n.value)
    ensures FreshNames([m] + others, seen) && forall n <- [m] + others :: WellFormed(n.value)
    ensures MemberTokens([m] + others) == [Text(m.name)] + Tokens(m.value) + MemberTokens(others)
  {
    var members := [m] + others;
    assert members[1..] == others;
    FreshNamesOfMore(members, seen);
  }

  lemma MemberTokensInFront(m: Member, others: seq<Member>, rest: seq<Token>)
    requires MemberTokens([m] + others) == [Text(m.name)] + Tokens(m.value) + MemberTokens(others)
    ensures MemberTokens([m] + others) + [CloseObject] + rest
            == [Text(m.name)] + (Tokens(m.value) + (MemberTokens(others) + [CloseObject] + rest))
  {
  }

  lemma {:induction false} OnlyMembersAreScanned(ts: seq<Token>, seen: set<string>) returns (members: seq<Member>)
    requires AfterMembers(ts, seen).Some?
    ensures forall m <- members :: WellFormed(m.value)
    ensures FreshNames(members, seen)
    ensures ts == MemberTokens(members) + [CloseObject] + AfterMembers(ts, seen).value
    decreases |ts|, 1
  {
    if ts[0].CloseObject? {
      members := [];
    } else {
      var value := OnlyValuesAreScanned(ts[1..]);
      var others := OnlyMembersAreScanned(Rest(ts[1..]).value, seen + {ts[0].s});
      members := [Member(ts[0].s, value)] + others;
      MemberInFront(Member(ts[0].s, value), others, seen);
      MemberTokensInFront(Member(ts[0].s, value), others, AfterMembers(ts, seen).value);
      assert ts == [ts[0]] + ts[1..];
    }
  }

  lemma {:induction false} OnlyItemsAreScanned(ts: seq<Token>) returns (items: seq<Value>)
    requires AfterItems(ts).Some?
    ensures forall item <- items :: WellFormed(item) && DistinctNames(item)
    ensures ts == ItemTokens(items) + [CloseArray] + AfterItems(ts).value
    decreases |ts|, 1
  {
    if ts[0].CloseArray? {
      items := [];
    } else {
      var first := OnlyValuesAreScanned(ts);
      var others := OnlyItemsAreScanned(Rest(ts).value);
      items := [first] + others;
      assert items[1..] == others;
    }
  }

  // --- The scanner ---

  // A decoder over the tokens of a body; `broken` says that the text after them is not JSON.
  class Decoder {
    var remaining: seq<Token>
    const broken: bool

    constructor (tokens: seq<Token>, broken: bool)
      ensures remaining == tokens && this.broken == broken
    {
      remaining, this.broken := tokens, broken;
    }

    // Whether there is another element in the array or object being read.
    predicate More()
      reads this
    {
      remaining != [] && !remaining[0].CloseObject? && !remaining[0].CloseArray?
    }

    method Next() returns (token: Option<Token>)
      modifies this
      ensures token == if old(remaining) == [] then None else Some(old(remaining)[0])
      ensures remaining == if old(remaining) == [] then [] else old(remaining)[1..]
    {
      if remaining == [] { return None; }
      token := Some(remaining[0]);
      remaining := remaining[1..];
    }

    // Reads one value, refusing a repeated name in any of its objects.
    method ScanJSONValue() returns (ok: bool)
      modifies this
      ensures ok <==> Rest(old(remaining)).Some?
      ensures ok ==> remaining == Rest(old(remaining)).value
      ensures |remaining| <= |old(remaining)|
      decreases |remaining|
    {
      var token := Next();
      if token.None? { return false; }
      match token.value {
        case Text(_) => return true;
        case Scalar(_) => return true;
        case CloseObject => return false;
        case CloseArray => return false;
        case OpenObject =>
          ghost var start := remaining;
          var seen: set<string> := {};
          while More()
            invariant |remaining| < |old(remaining)|
            invariant AfterMembers(start, {}) == AfterMembers(remaining, seen)
            decreases |remaining|
          {
            var key := Next();
            if !key.value.Text? || key.value.s in seen { return false; }
            seen := seen + {key.value.s};
            ok := ScanJSONValue();
            if !ok { return false; }
          }
          var end := Next();
          ok := end == Some(CloseObject);
        case OpenArray =>
          ghost var start := remaining;
          while More()
            invariant |remaining| < |old(remaining)|
            invariant AfterItems(start) == AfterItems(remaining)
            decreases |remaining|
          {
            ok := ScanJSONValue();
            if !ok { return false; }
          }
          var end := Next();
          ok := end == Some(CloseArray);
      }
    }
  }

  /** A body is accepted exactly when its tokens are one JSON document, nothing follows, and
      no object at any depth repeats a name. */
  method RejectDuplicateObjectKeys(tokens: seq<Token>, broken: bool) returns (ok: bool)
    ensures ok <==> !broken && exists v :: WellFormed(v) && DistinctNames(v) && tokens == Tokens(v)
  {
    var dec := new Decoder(tokens, broken);
    ok := dec.ScanJSONValue();
    if ok {
      ghost var v := OnlyValuesAreScanned(tokens);
      assert dec.remaining == [] ==> Tokens(v) + [] == Tokens(v);
    }
    forall v | WellFormed(v) && tokens == Tokens(v)
      ensures Rest(tokens) == if DistinctNames(v) then Some([]) else None
    {
      ValueIsScanned(v, []);
      assert Tokens(v) + [] == Tokens(v);
    }
    if !ok { return; }
    var trailing := dec.Next();
    ok := trailing.None? && !broken;
  }

  /** One stream is one document: the tokens tell the value and where it ends. */
  lemma {:induction false} TokensTellTheValue(v: Value, w: Value, r: seq<Token>, s: seq<Token>)
    requires WellFormed(v) && WellFormed(w) && Tokens(v) + r == Tokens(w) + s
    ensures v == w && r == s
    decreases v, 1
  {
    var ts := Tokens(v) + r;
    assert ts[0] == Tokens(v)[0] == Tokens(w)[0];
    match v
    case Atom(_) =>
      assert r == ts[1..] && s == ts[1..];
    case Object(members) =>
      assert ts[1..] == MemberTokens(members) + ([CloseObject] + r);
      assert ts[1..] == MemberTokens(w.members) + ([CloseObject] + s);
      TokensTellTheMembers(members, w.members, r, s);
    case Array(items) =>
      assert ts[1..] == ItemTokens(items) + ([CloseArray] + r);
      assert ts[1..] == ItemTokens(w.items) + ([CloseArray] + s);
      TokensTellTheItems(items, w.items, r, s);
  }

  lemma {:induction false} TokensTellTheMembers(ms: seq<Member>, ns: seq<Member>, r: seq<Token>, s: seq<Token>)
    requires (forall m <- ms :: WellFormed(m.value)) && (forall n <- ns :: WellFormed(n.value))
    requires MemberTokens(ms) + ([CloseObject] + r) == MemberTokens(ns) + ([CloseObject] + s)
    ensures ms == ns && r == s
    decreases ms, 0
  {
    var ts := MemberTokens(ms) + ([CloseObject] + r);
    if ms == [] || ns == [] {
      assert ts[0] == CloseObject && ms == ns;
      assert r == ts[1..] && s == ts[1..];
    } else {
      var more, others := MemberTokens(ms[1..]) + ([CloseObject] + r), MemberTokens(ns[1..]) + ([CloseObject] + s);
      assert ts[1..] == Tokens(ms[0].value) + more && ts[1..] == Tokens(ns[0].value) + others;
      assert ts[0] == Text(ms[0].name) && ts[0] == Text(ns[0].name);
      TokensTellTheValue(ms[0].value, ns[0].value, more, others);
      TokensTellTheMembers(ms[1..], ns[1..], r, s);
      assert ms == [ms[0]] + ms[1..] && ns == [ns[0]] + ns[1..];
    }
  }

  lemma {:induction false} TokensTellTheItems(xs: seq<Value>, ys: seq<Value>, r: seq<Token>, s: seq<Token>)
    requires (forall x <- xs :: WellFormed(x)) && (forall y <- ys :: WellFormed(y))
    requires ItemTokens(xs) + ([CloseArray] + r) == ItemTokens(ys) + ([CloseArray] + s)
    ensures xs == ys && r == s
    decreases xs, 0
  {
    var ts := ItemTokens(xs) + ([CloseArray] + r);
    if xs != [] { assert ts[0] == Tokens(xs[0])[0] && xs[0] in xs; }
    if ys != [] { assert ts[0] == Tokens(ys[0])[0] && ys[0] in ys; }
    if xs == [] || ys == [] {
      assert ts[0] == CloseArray && xs == ys;
      assert r == ts[1..] && s == ts[1..];
    } else {
      var more, others := ItemTokens(xs[1..]) + ([CloseArray] + r), ItemTokens(ys[1..]) + ([CloseArray] + s);
      assert ts == Tokens(xs[0]) + more && ts == Tokens(ys[0]) + others;
      TokensTellTheValue(xs[0], ys[0], more, others);
      TokensTellTheItems(xs[1..], ys[1..], r, s);
      assert xs == [xs[0]] + xs[1..] && ys == [ys[0]] + ys[1..];
    }
  }
}
