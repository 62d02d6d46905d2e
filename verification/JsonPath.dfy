// Dotted-path access to JSON documents (server/core/app/JsonParser.cpp).  A document is a
// tree; object members are kept in key order, as the JSON library keeps them.
module JsonPath {
  import opened Search
  import opened Wrappers

  datatype Json = Null | Scalar(text: string) | Arr(items: seq<Json>) | Obj(entries: seq<Entry>)

  datatype Entry = Entry(key: string, val: Json)

  // ---- paths ----------------------------------------------------------------------------

  /** getline until the input is used up: a trailing dot opens no further token. */
  function Split(s: string): seq<string>
    decreases |s|
  {
    if s == "" then []
    else
      var i := FirstOf(s, '.');
      if i == |s| then [s] else [s[..i]] + Split(s[i + 1..])
  }

  function Join(tokens: seq<string>): string {
    if tokens == [] then "" else if |tokens| == 1 then tokens[0] else tokens[0] + "." + Join(tokens[1..])
  }

  predicate DotFree(tokens: seq<string>) { forall t :: t in tokens ==> '.' !in t }

  lemma SplitHead(head: string, rest: string)
    requires '.' !in head
    ensures Split(head + "." + rest) == [head] + Split(rest)
    ensures Split(head) == if head == "" then [] else [head]
  {
    var s := head + "." + rest;
    FirstAfter(head, '.', rest);
    assert s[..|head|] == head && s[|head| + 1..] == rest;
  }

  /** Tokens without dots survive joining and parsing exactly when the last is not empty. */
  lemma {:induction false} SplitJoinIff(tokens: seq<string>)
    requires DotFree(tokens)
    ensures Split(Join(tokens)) == tokens <==> tokens == [] || tokens[|tokens| - 1] != ""
    decreases |tokens|
  {
    hide Split;
    SplitHead("", "");
    if tokens != [] {
      assert tokens[0] in tokens;
      if |tokens| == 1 {
        SplitHead(tokens[0], "");
        assert tokens == [tokens[0]];
      } else {
        var rest := tokens[1..];
        assert forall t :: t in rest ==> t in tokens;
        SplitJoinIff(rest);
        SplitHead(tokens[0], Join(rest));
        assert tokens == [tokens[0]] + rest;
        assert rest[|rest| - 1] == tokens[|tokens| - 1];
      }
    }
  }

  method ParseKeyPath(keyPath: string) returns (tokens: seq<string>)
    ensures tokens == Split(keyPath)
  {
    hide Split;
    tokens := [];
    var token := "";
    var i := 0;
    assert "" + keyPath[0..] == keyPath;
    assert [] + Split(keyPath) == Split(keyPath);
    while i < |keyPath|
      invariant 0 <= i <= |keyPath| && '.' !in token
      invariant tokens + Split(token + keyPath[i..]) == Split(keyPath)
    {
      var c, later := keyPath[i], keyPath[i + 1..];
      assert keyPath[i..] == [c] + later;
      if c == '.' {
        SplitHead(token, later);
        assert token + keyPath[i..] == token + "." + later;
        assert tokens + ([token] + Split(later)) == tokens + [token] + Split(later);
        tokens := tokens + [token];
        token := "";
        assert "" + later == later;
      } else {
        assert token + keyPath[i..] == token + [c] + later;
        token := token + [c];
      }
      i := i + 1;
    }
    SplitHead(token, "");
    assert token + keyPath[i..] == token;
    if token != "" {
      tokens := tokens + [token];
    }
  }

  // ---- array indexes: std::stoul --------------------------------------------------------

  predicate IsDigit(c: char) { '0' <= c <= '9' }

  predicate IsSpace(c: char) { c == ' ' || '\t' <= c <= '\r' }

  function Digits(s: string, acc: nat): nat {
    if s == "" || !IsDigit(s[0]) then acc else Digits(s[1..], 10 * acc + (s[0] as nat - '0' as nat))
  }

  function Unsigned(s: string): Option<nat> {
    if s == "" || !IsDigit(s[0]) then None
    else
      var n := Digits(s, 0);
      if n < 0x1_0000_0000_0000_0000 then Some(n) else None
  }

  /** Leading blanks and a sign are taken, anything after the digits is ignored; None for an
      exception. */
  function Stoul(s: string): Option<nat> {
    if s == "" then None
    else if IsSpace(s[0]) then Stoul(s[1..])
    else if s[0] == '+' then Unsigned(s[1..])
    else if s[0] == '-' then
      (match Unsigned(s[1..])
       case None => None
       case Some(n) => Some(if n == 0 then 0 else 0x1_0000_0000_0000_0000 - n))
    else Unsigned(s)
  }

  /** The usual spelling of a number. */
  function Decimal(i: nat): string {
    var digit := [(i % 10 + '0' as nat) as char];
    if i < 10 then digit else Decimal(i / 10) + digit
  }

  lemma {:induction false} DecimalHead(n: nat)
    ensures Decimal(n) != "" && forall c :: c in Decimal(n) ==> IsDigit(c)
    decreases n
  {
    if n >= 10 {
      DecimalHead(n / 10);
    }
  }

  lemma {:induction false} DigitsOfDecimal(n: nat, rest: string)
    ensures Digits(Decimal(n) + rest, 0) == Digits(rest, n)
    decreases n
  {
    var digit := [(n % 10 + '0' as nat) as char];
    assert (digit + rest)[1..] == rest;
    if n >= 10 {
      DigitsOfDecimal(n / 10, digit + rest);
      assert Decimal(n) + rest == Decimal(n / 10) + (digit + rest);
    } else {
      assert Decimal(n) == digit;
    }
  }

  lemma UnsignedReads(n: nat, junk: string)
    requires junk == "" || !IsDigit(junk[0])
    ensures Unsigned(Decimal(n) + junk) == if n < 0x1_0000_0000_0000_0000 then Some(n) else None
  {
    hide Decimal;
    DecimalHead(n);
    DigitsOfDecimal(n, junk);
    var s := Decimal(n) + junk;
    assert s[0] == Decimal(n)[0] && s[0] in Decimal(n);
  }

  /** A decimal number is read back after any blanks and a sign and before anything that is no
      digit; a negative one comes out modulo 2^64, one of 2^64 or more is refused. */
  lemma {:induction false} StoulReads(blanks: string, sign: string, n: nat, junk: string)
    requires (forall c :: c in blanks ==> c == ' ' || c == '\t' || c == '\n' || c == '\r') && sign in ["", "+", "-"]
    requires junk == "" || !IsDigit(junk[0])
    ensures Stoul(blanks + (sign + (Decimal(n) + junk))) ==
      if n >= 0x1_0000_0000_0000_0000 then None
      else Some(if sign == "-" && n > 0 then 0x1_0000_0000_0000_0000 - n else n)
    decreases |blanks|
  {
    hide Decimal, Unsigned;
    var number := Decimal(n) + junk;
    var s := blanks + (sign + number);
    if blanks != "" {
      assert blanks[0] in blanks && forall c :: c in blanks[1..] ==> c in blanks;
      assert s[0] == blanks[0] && s[1..] == blanks[1..] + (sign + number);
      StoulReads(blanks[1..], sign, n, junk);
    } else {
      UnsignedReads(n, junk);
      DecimalHead(n);
      assert s == sign + number && number[0] == Decimal(n)[0] && number[0] in Decimal(n);
      if sign == "" {
        assert s == number;
      } else {
        assert s[0] == sign[0] && s[1..] == number;
      }
    }
  }

  /** Without a digit there is no number. */
  lemma StoulRefuses(s: string)
    requires forall c :: c in s ==> !IsDigit(c)
    ensures Stoul(s) == None
    decreases |s|
  {
    if s != "" {
      assert s[0] in s && forall c :: c in s[1..] ==> c in s;
      if IsSpace(s[0]) {
        StoulRefuses(s[1..]);
      } else if |s| > 1 {
        assert s[1] in s;
      }
    }
  }

  // ---- objects --------------------------------------------------------------------------

  function Find(es: seq<Entry>, k: string): Option<Json> {
    if es == [] then None else if es[0].key == k then Some(es[0].val) else Find(es[1..], k)
  }

  function Less(a: string, b: string): bool {
    if b == "" then false else if a == "" then true else a[0] < b[0] || (a[0] == b[0] && Less(a[1..], b[1..]))
  }

  /** The strings part at their k-th character, or a ends there. */
  predicate PartAt(a: string, b: string, k: nat) {
    && k <= |a| && k < |b| && a[..k] == b[..k] && (k == |a| || a[k] < b[k])
  }

  /** The order of keys is lexicographic. */
  lemma {:induction false} LessIff(a: string, b: string)
    ensures Less(a, b) <==> exists k: nat :: PartAt(a, b, k)
    decreases |a|
  {
    if b != "" {
      if a == "" {
        assert PartAt(a, b, 0);
      } else {
        LessIff(a[1..], b[1..]);
        if a[0] < b[0] {
          assert PartAt(a, b, 0);
        } else if Less(a, b) {
          var k: nat :| PartAt(a[1..], b[1..], k);
          assert a[..k + 1] == [a[0]] + a[1..][..k] && b[..k + 1] == [b[0]] + b[1..][..k];
          assert PartAt(a, b, k + 1);
        }
        if k: nat :| PartAt(a, b, k) && k > 0 {
          assert a[0] == a[..k][0] == b[..k][0] == b[0];
          assert a[1..][..k - 1] == a[..k][1..] && b[1..][..k - 1] == b[..k][1..];
          assert PartAt(a[1..], b[1..], k - 1);
        }
      }
    }
  }

  lemma {:induction false} LessOrEqual(a: string, b: string)
    ensures Less(a, b) || Less(b, a) || a == b
    decreases |a|
  {
    if a != "" && b != "" {
      LessOrEqual(a[1..], b[1..]);
      assert a == [a[0]] + a[1..] && b == [b[0]] + b[1..];
    }
  }

  /** Members in strictly ascending key order, as far as neighbours go. */
  ghost predicate Ordered(es: seq<Entry>) {
    forall i :: 0 < i < |es| ==> Less(es[i - 1].key, es[i].key)
  }

  /** A new member goes to its place in the order. */
  lemma {:induction false} InsertOrdered(es: seq<Entry>, k: string, v: Json)
    requires Ordered(es) && Find(es, k).None?
    ensures Ordered(Insert(es, k, v)) && |Insert(es, k, v)| == |es| + 1
    ensures Insert(es, k, v)[0].key == if es == [] || Less(k, es[0].key) then k else es[0].key
    decreases |es|
  {
    hide Less;
    if es != [] && !Less(k, es[0].key) {
      LessOrEqual(k, es[0].key);
      assert forall i :: 0 <= i < |es[1..]| ==> es[1..][i] == es[i + 1];
      InsertOrdered(es[1..], k, v);
      var r := Insert(es[1..], k, v);
      assert Insert(es, k, v) == [es[0]] + r;
      forall i | 0 < i < |es| + 1 ensures Less(([es[0]] + r)[i - 1].key, ([es[0]] + r)[i].key) {
        if i > 1 {
          assert Less(r[i - 2].key, r[i - 1].key);
        } else if es[1..] != [] && !Less(k, es[1].key) {
          assert Less(es[0].key, es[1].key);
        }
      }
    }
  }

  /** Assigns a member that is there. */
  function Replace(es: seq<Entry>, k: string, v: Json): seq<Entry> {
    if es == [] then []
    else if es[0].key == k then [Entry(k, v)] + es[1..]
    else [es[0]] + Replace(es[1..], k, v)
  }

  /** Adds a member in key order. */
  function Insert(es: seq<Entry>, k: string, v: Json): seq<Entry> {
    if es == [] || Less(k, es[0].key) then [Entry(k, v)] + es else [es[0]] + Insert(es[1..], k, v)
  }

  lemma {:induction false} ReplaceFinds(es: seq<Entry>, k: string, v: Json, x: string)
    requires Find(es, k).Some?
    ensures Find(Replace(es, k, v), x) == if x == k then Some(v) else Find(es, x)
  {
    var r := Replace(es, k, v);
    if es[0].key == k {
      assert r[1..] == es[1..];
    } else {
      ReplaceFinds(es[1..], k, v, x);
      assert r[1..] == Replace(es[1..], k, v);
    }
  }

  lemma {:induction false} ReplaceSame(es: seq<Entry>, k: string)
    requires Find(es, k).Some?
    ensures Replace(es, k, Find(es, k).value) == es
  {
    if es[0].key != k {
      ReplaceSame(es[1..], k);
    }
  }

  lemma {:induction false} InsertFinds(es: seq<Entry>, k: string, v: Json, x: string)
    requires Find(es, k).None?
    ensures Find(Insert(es, k, v), x) == if x == k then Some(v) else Find(es, x)
  {
    var r := Insert(es, k, v);
    if es == [] || Less(k, es[0].key) {
      assert r[1..] == es;
    } else {
      InsertFinds(es[1..], k, v, x);
      assert r[1..] == Insert(es[1..], k, v);
    }
  }

  // ---- looking up -----------------------------------------------------------------------

  /** One step of the walk of getConstJsonRef. */
  function Child(j: Json, token: string): Option<Json> {
    match j
    case Obj(es) => Find(es, token)
    case Arr(items) =>
      (match Stoul(token)
       case Some(i) => if i < |items| then Some(items[i]) else None
       case None => None)
    case _ => None
  }

  function Get(j: Json, tokens: seq<string>): Option<Json>
    decreases |tokens|
  {
    if tokens == [] then Some(j)
    else
      match Child(j, tokens[0])
      case Some(c) => Get(c, tokens[1..])
      case None => None
  }

  /** What getValue answers: a null counts as absent. */
  function Value(j: Json, tokens: seq<string>): Option<Json> {
    match Get(j, tokens)
    case Some(Null) => None
    case r => r
  }

  /** An element is found by its index. */
  lemma ElementByIndex(items: seq<Json>, i: nat)
    requires i < |items| && i < 0x1_0000_0000_0000_0000
    ensures Split(Decimal(i)) == [Decimal(i)] && Get(Arr(items), Split(Decimal(i))) == Some(items[i])
  {
    hide Decimal, Stoul;
    StoulReads("", "", i, "");
    assert "" + ("" + (Decimal(i) + "")) == Decimal(i);
    DecimalHead(i);
    if '.' in Decimal(i) {
      assert false;
    }
    SplitHead(Decimal(i), "");
    assert [Decimal(i)][1..] == [];
  }

  method GetConstJsonRef(config: Json, keyPath: string) returns (node: Option<Json>)
    ensures node == Get(config, Split(keyPath))
  {
    var tokens := ParseKeyPath(keyPath);
    var current := config;
    var i := 0;
    while i < |tokens|
      invariant 0 <= i <= |tokens| && Get(current, tokens[i..]) == Get(config, tokens)
    {
      assert tokens[i..][1..] == tokens[i + 1..];
      var child := Child(current, tokens[i]);
      if child.None? {
        return None;
      }
      current := child.value;
      i := i + 1;
    }
    node := Some(current);
  }

  method GetValue(config: Json, keyPath: string) returns (value: Option<Json>)
    ensures value == Value(config, Split(keyPath))
  {
    var node := GetConstJsonRef(config, keyPath);
    value := if node.Some? && !node.value.Null? then node else None;
  }

  // ---- setting --------------------------------------------------------------------------

  /** The document after getMutableJsonRef has walked and created, and whether it reached a
      node; what was created on the way stays created either way. */
  datatype Walk = Walk(doc: Json, ok: bool)

  function Padding(n: nat): seq<Json> { seq(n, _ => Obj([])) }

  function Grow(j: Json, tokens: seq<string>): Walk
    decreases |tokens|
  {
    if tokens == [] then Walk(j, true)
    else
      var t, rest := tokens[0], tokens[1..];
      match j
      case Obj(es) =>
        (match Find(es, t)
         case Some(c) => var w := Grow(c, rest); Walk(Obj(Replace(es, t, w.doc)), w.ok)
         case None => var w := Grow(Obj([]), rest); Walk(Obj(Insert(es, t, w.doc)), w.ok))
      case Arr(items) =>
        (match Stoul(t)
         case None => Walk(j, false)
         case Some(i) =>
           var longer := if i < |items| then items else items + Padding(i + 1 - |items|);
           var w := Grow(longer[i], rest);
           Walk(Arr(longer[i := w.doc]), w.ok))
      case Null =>
        var w := Grow(Obj([]), rest);
        Walk(Obj([Entry(t, w.doc)]), w.ok)
      case Scalar(_) => Walk(j, false)
  }

  /** Assignment through the reference. */
  function Assign(j: Json, tokens: seq<string>, v: Json): Json
    decreases |tokens|
  {
    if tokens == [] then v
    else
      match j
      case Obj(es) =>
        (match Find(es, tokens[0])
         case Some(c) => Obj(Replace(es, tokens[0], Assign(c, tokens[1..], v)))
         case None => j)
      case Arr(items) =>
        (match Stoul(tokens[0])
         case Some(i) => if i < |items| then Arr(items[i := Assign(items[i], tokens[1..], v)]) else j
         case None => j)
      case _ => j
  }

  /** An array that is too short grows just as far as the index, by empty objects; its other
      elements stay. */
  lemma ArrayGrows(items: seq<Json>, tokens: seq<string>, i: nat)
    requires tokens != [] && Stoul(tokens[0]) == Some(i)
    ensures var w := Grow(Arr(items), tokens);
      && w.doc.Arr? && |w.doc.items| == (if i < |items| then |items| else i + 1)
      && w.ok == Grow(if i < |items| then items[i] else Obj([]), tokens[1..]).ok
      && w.doc.items[i] == Grow(if i < |items| then items[i] else Obj([]), tokens[1..]).doc
      && forall k :: 0 <= k < |w.doc.items| && k != i ==> w.doc.items[k] == if k < |items| then items[k] else Obj([])
  {
    hide Stoul;
  }

  /** Inside a fresh object every path can be created. */
  lemma {:induction false} FreshGrows(tokens: seq<string>)
    ensures Grow(Obj([]), tokens).ok
    decreases |tokens|
  {
    if tokens != [] {
      FreshGrows(tokens[1..]);
    }
  }

  /** A walk that fails has created nothing. */
  lemma {:induction false} FailureLeavesUnchanged(j: Json, tokens: seq<string>)
    requires !Grow(j, tokens).ok
    ensures Grow(j, tokens).doc == j
    decreases |tokens|
  {
    FreshGrows(tokens[1..]);
    match j
    case Obj(es) =>
      if Find(es, tokens[0]).Some? {
        FailureLeavesUnchanged(Find(es, tokens[0]).value, tokens[1..]);
        ReplaceSame(es, tokens[0]);
      }
    case Arr(items) =>
      if Stoul(tokens[0]).Some? && Stoul(tokens[0]).value < |items| {
        FailureLeavesUnchanged(items[Stoul(tokens[0]).value], tokens[1..]);
      }
    case _ =>
  }

  /** A successful setValue, step by step down the path. */
  function Set(j: Json, tokens: seq<string>, v: Json): Json { Assign(Grow(j, tokens).doc, tokens, v) }

  lemma {:induction false} GetAfterAssign(j: Json, tokens: seq<string>, v: Json)
    requires Get(j, tokens).Some?
    ensures Get(Assign(j, tokens, v), tokens) == Some(v)
    decreases |tokens|
  {
    if tokens != [] {
      GetAfterAssign(Child(j, tokens[0]).value, tokens[1..], v);
      if j.Obj? {
        ReplaceFinds(j.entries, tokens[0], Assign(Find(j.entries, tokens[0]).value, tokens[1..], v), tokens[0]);
      }
    }
  }

  lemma {:induction false} GrownResolves(j: Json, tokens: seq<string>)
    requires Grow(j, tokens).ok
    ensures Get(Grow(j, tokens).doc, tokens).Some?
    decreases |tokens|
  {
    if tokens != [] {
      var t, rest := tokens[0], tokens[1..];
      FreshGrows(rest);
      match j
      case Obj(es) =>
        if Find(es, t).Some? {
          GrownResolves(Find(es, t).value, rest);
          ReplaceFinds(es, t, Grow(Find(es, t).value, rest).doc, t);
        } else {
          GrownResolves(Obj([]), rest);
          InsertFinds(es, t, Grow(Obj([]), rest).doc, t);
        }
      case Arr(items) =>
        var i := Stoul(t).value;
        GrownResolves(if i < |items| then items[i] else Obj([]), rest);
      case Null => GrownResolves(Obj([]), rest);
      case Scalar(_) =>
    }
  }

  /** What was set is what a lookup at that path gives. */
  lemma GetAfterSet(j: Json, tokens: seq<string>, v: Json)
    requires Grow(j, tokens).ok
    ensures Get(Set(j, tokens, v), tokens) == Some(v)
    ensures v != Null ==> Value(Set(j, tokens, v), tokens) == Some(v)
  {
    GrownResolves(j, tokens);
    GetAfterAssign(Grow(j, tokens).doc, tokens, v);
  }

  /** The two tokens lead to the same member of j. */
  predicate SameStep(j: Json, a: string, b: string) { if j.Arr? then Stoul(a) == Stoul(b) else a == b }

  /** Paths p and q part at some node of the document. */
  predicate Diverge(j: Json, p: seq<string>, q: seq<string>)
    decreases |q|
  {
    && p != [] && q != []
    && (SameStep(j, p[0], q[0]) ==>
          match Child(j, q[0])
          case Some(c) => Diverge(c, p[1..], q[1..])
          case None => true)
  }

  /** Creating path p moves nothing that was there. */
  lemma {:induction false} GrowKeeps(j: Json, p: seq<string>, q: seq<string>)
    requires Get(j, q).Some? && Diverge(j, p, q)
    ensures Get(Grow(j, p).doc, q) == Get(j, q) && Diverge(Grow(j, p).doc, p, q)
    decreases |q|
  {
    var t, rest := p[0], p[1..];
    var c := Child(j, q[0]).value;
    if SameStep(j, t, q[0]) {
      GrowKeeps(c, rest, q[1..]);
      if j.Obj? {
        ReplaceFinds(j.entries, t, Grow(c, rest).doc, q[0]);
      }
    } else if j.Obj? {
      if Find(j.entries, t).Some? {
        ReplaceFinds(j.entries, t, Grow(Find(j.entries, t).value, rest).doc, q[0]);
      } else {
        InsertFinds(j.entries, t, Grow(Obj([]), rest).doc, q[0]);
      }
    }
  }

  lemma {:induction false} AssignKeeps(j: Json, p: seq<string>, q: seq<string>, v: Json)
    requires Get(j, q).Some? && Diverge(j, p, q)
    ensures Get(Assign(j, p, v), q) == Get(j, q)
    decreases |q|
  {
    var t, rest := p[0], p[1..];
    var c := Child(j, q[0]).value;
    if SameStep(j, t, q[0]) {
      AssignKeeps(c, rest, q[1..], v);
    }
    if j.Obj? && Find(j.entries, t).Some? {
      ReplaceFinds(j.entries, t, Assign(Find(j.entries, t).value, rest, v), q[0]);
    }
  }

  /** Every lookup that succeeded on a path that parts from p is unchanged. */
  lemma OthersUnchanged(j: Json, p: seq<string>, q: seq<string>, v: Json)
    requires Get(j, q).Some? && Diverge(j, p, q)
    ensures Get(Set(j, p, v), q) == Get(j, q) && Value(Set(j, p, v), q) == Value(j, q)
  {
    GrowKeeps(j, p, q);
    AssignKeeps(Grow(j, p).doc, p, q, v);
  }

  /** While both paths take the same step, setting and looking up both go on below it. */
  lemma SetBelow(j: Json, p: seq<string>, q: seq<string>, v: Json)
    requires p != [] && q != [] && SameStep(j, p[0], q[0]) && Child(j, q[0]).Some?
    ensures Get(Set(j, p, v), q) == Get(Set(Child(j, q[0]).value, p[1..], v), q[1..])
  {
    hide Set;
    var t, c := p[0], Child(j, q[0]).value;
    var grown, set' := Grow(c, p[1..]).doc, Set(c, p[1..], v);
    SetIs(j, p, v);
    SetIs(c, p[1..], v);
    if j.Obj? {
      ReplaceFinds(j.entries, t, grown, t);
      ReplaceFinds(Replace(j.entries, t, grown), t, set', t);
    }
  }

  lemma SetIs(j: Json, tokens: seq<string>, v: Json)
    ensures Set(j, tokens, v) == Assign(Grow(j, tokens).doc, tokens, v)
  {
  }

  /** If the paths do not part, some value set at p shows at q. */
  lemma {:induction false} SetShows(j: Json, p: seq<string>, q: seq<string>) returns (v: Json)
    requires Get(j, q).Some? && Grow(j, p).ok && !Diverge(j, p, q)
    ensures v != Null && Get(Set(j, p, v), q) != Get(j, q)
    decreases |q|
  {
    if p == [] {
      v := if j == Scalar("") then Scalar("0") else Scalar("");
    } else if q == [] {
      v := if Get(j, p) == Some(Scalar("")) then Scalar("0") else Scalar("");
      GetAfterSet(j, p, v);
    } else {
      v := SetShows(Child(j, q[0]).value, p[1..], q[1..]);
      SetBelow(j, p, q, v);
    }
  }

  /** A lookup that succeeds at q is safe from every setValue at p exactly when the paths part
      in the document; and so is a getValue that finds something. */
  lemma {:induction false} OthersUnchangedIff(j: Json, p: seq<string>, q: seq<string>)
    requires Get(j, q).Some? && Grow(j, p).ok
    ensures Diverge(j, p, q) <==> forall v :: Get(Set(j, p, v), q) == Get(j, q)
    ensures Value(j, q).Some? ==>
      (Diverge(j, p, q) <==> forall v :: v != Null ==> Value(Set(j, p, v), q) == Value(j, q))
  {
    hide Get, Set, Grow, Diverge;
    if Diverge(j, p, q) {
      forall v ensures Get(Set(j, p, v), q) == Get(j, q) && Value(Set(j, p, v), q) == Value(j, q) {
        OthersUnchanged(j, p, q, v);
      }
    } else {
      var v := SetShows(j, p, q);
      assert v != Null && Get(Set(j, p, v), q) != Get(j, q);
    }
  }

  /** Index tokens in one spelling only. */
  ghost predicate OneSpelling(p: seq<string>, q: seq<string>) {
    forall a, b :: a in p && b in q && a != b && Stoul(a).Some? ==> Stoul(a) != Stoul(b)
  }

  /** Then paths that part as token lists part in the document, for any lookup that succeeds. */
  lemma {:induction false} ListsDiverge(j: Json, p: seq<string>, q: seq<string>)
    requires OneSpelling(p, q) && !(p <= q) && !(q <= p) && Get(j, q).Some?
    ensures Diverge(j, p, q)
    decreases |q|
  {
    assert p[0] in p && q[0] in q;
    if p[0] == q[0] {
      assert p == [p[0]] + p[1..] && q == [q[0]] + q[1..];
      assert forall a :: a in p[1..] ==> a in p;
      assert forall b :: b in q[1..] ==> b in q;
      if Child(j, q[0]).Some? {
        ListsDiverge(Child(j, q[0]).value, p[1..], q[1..]);
      }
    }
  }

  /** With two spellings of an index, setting one path changes the other. */
  lemma SpellingsCollide(v: Json, w: Json)
    requires v != w
    ensures var j := Arr([w]);
      && Get(j, ["00"]) == Some(w) && Grow(j, ["0"]).ok && Get(Set(j, ["0"], v), ["00"]) == Some(v)
  {
    assert Stoul("0") == Some(0) by {
      assert Digits("0", 0) == Digits("0"[1..], 0) == 0;
    }
    assert Stoul("00") == Some(0) by {
      assert "00"[1..] == "0" && Digits("00", 0) == Digits("0", 0) && Digits("0", 0) == Digits("0"[1..], 0) == 0;
    }
    assert ["00"][1..] == [] && ["0"][1..] == [];
  }

  class Config {
    var root: Json

    constructor (doc: Json)
      ensures root == doc
    {
      root := doc;
    }

    /** Walk, create, assign; a refused path leaves the document as it was. */
    method SetValue(keyPath: string, value: Json) returns (ok: bool)
      modifies this
      ensures ok <==> Grow(old(root), Split(keyPath)).ok
      ensures ok ==> root == Set(old(root), Split(keyPath), value) && Get(root, Split(keyPath)) == Some(value)
      ensures !ok ==> root == old(root)
    {
      var tokens := ParseKeyPath(keyPath);
      var w := Grow(root, tokens);
      if w.ok {
        GetAfterSet(root, tokens, value);
        root := Assign(w.doc, tokens, value);
        return true;
      }
      FailureLeavesUnchanged(root, tokens);
      root := w.doc;
      ok := false;
    }
  }

  // ---- listing keys ---------------------------------------------------------------------

  function Under(prefix: string, key: string): string { if prefix == "" then key else prefix + "." + key }

  function Indexed(prefix: string, i: nat): string { prefix + "[" + Decimal(i) + "]" }

  /** collectKeysRecursive. */
  function Collect(j: Json, prefix: string): seq<string>
    decreases j
  {
    match j
    case Obj(es) => CollectMembers(es, prefix)
    case Arr(items) => CollectItems(items, prefix, 0)
    case _ => []
  }

  function CollectMembers(es: seq<Entry>, prefix: string): seq<string>
    decreases es
  {
    if es == [] then []
    else
      var path := Under(prefix, es[0].key);
      [path] + Collect(es[0].val, path) + CollectMembers(es[1..], prefix)
  }

  function CollectItems(items: seq<Json>, prefix: string, i: nat): seq<string>
    decreases items
  {
    if items == [] then [] else Collect(items[0], Indexed(prefix, i)) + CollectItems(items[1..], prefix, i + 1)
  }

  ghost predicate ItemHas(items: seq<Json>, prefix: string, from: nat, path: string, i: nat) {
    i < |items| && path in Collect(items[i], Indexed(prefix, from + i))
  }

  lemma {:induction false} ItemsHave(items: seq<Json>, prefix: string, from: nat, path: string) returns (i: nat)
    requires path in CollectItems(items, prefix, from)
    ensures ItemHas(items, prefix, from, path, i)
    decreases |items|
  {
    hide Indexed;
    if path in Collect(items[0], Indexed(prefix, from)) {
      i := 0;
      assert from + 0 == from;
    } else {
      i := ItemsHave(items[1..], prefix, from + 1, path);
      assert from + 1 + i == from + (i + 1);
      i := i + 1;
    }
  }

  lemma {:induction false} HadByItems(items: seq<Json>, prefix: string, from: nat, path: string, i: nat)
    requires ItemHas(items, prefix, from, path, i)
    ensures path in CollectItems(items, prefix, from)
    decreases |items|
  {
    hide Indexed;
    if i > 0 {
      assert from + i == from + 1 + (i - 1);
      HadByItems(items[1..], prefix, from + 1, path, i - 1);
    } else {
      assert from + i == from;
    }
  }

  /** What is listed for an array: what is listed for its elements, each under its index. */
  lemma {:induction false} ArrayListed(items: seq<Json>, prefix: string, path: string)
    ensures path in Collect(Arr(items), prefix) <==>
      exists i: nat :: i < |items| && path in Collect(items[i], prefix + "[" + Decimal(i) + "]")
  {
    hide Decimal;
    if path in CollectItems(items, prefix, 0) {
      var i := ItemsHave(items, prefix, 0, path);
      assert path in Collect(items[i], prefix + "[" + Decimal(i) + "]");
    }
    if i: nat :| i < |items| && path in Collect(items[i], prefix + "[" + Decimal(i) + "]") {
      HadByItems(items, prefix, 0, path, i);
    }
  }

  /** The paths of an object tree, as token lists, in the same order. */
  function Paths(j: Json): seq<seq<string>>
    decreases j
  {
    if j.Obj? then MemberPaths(j.entries) else []
  }

  function MemberPaths(es: seq<Entry>): seq<seq<string>>
    decreases es
  {
    if es == [] then [] else [[es[0].key]] + Below(es[0].key, Paths(es[0].val)) + MemberPaths(es[1..])
  }

  function Below(k: string, ps: seq<seq<string>>): seq<seq<string>> { seq(|ps|, i requires 0 <= i < |ps| => [k] + ps[i]) }

  function Spelled(prefix: string, ps: seq<seq<string>>): seq<string> {
    seq(|ps|, i requires 0 <= i < |ps| => Under(prefix, Join(ps[i])))
  }

  /** No arrays in the tree; members of an object have distinct, non-empty, dot-free keys. */
  ghost predicate ObjectTree(j: Json)
    decreases j
  {
    match j
    case Obj(es) => Members(es)
    case Arr(_) => false
    case _ => true
  }

  ghost predicate Members(es: seq<Entry>)
    decreases es
  {
    es == [] ||
    (es[0].key != "" && '.' !in es[0].key && Find(es[1..], es[0].key).None? && ObjectTree(es[0].val) && Members(es[1..]))
  }

  predicate GoodTokens(p: seq<string>) { p != [] && forall t :: t in p ==> t != "" && '.' !in t }

  lemma {:induction false} PathsGood(j: Json)
    requires ObjectTree(j)
    ensures forall p :: p in Paths(j) ==> GoodTokens(p)
    decreases j
  {
    if j.Obj? {
      MemberPathsGood(j.entries);
    }
  }

  lemma {:induction false} MemberPathsGood(es: seq<Entry>)
    requires Members(es)
    ensures forall p :: p in MemberPaths(es) ==> GoodTokens(p)
    decreases es
  {
    if es != [] {
      PathsGood(es[0].val);
      MemberPathsGood(es[1..]);
      BelowGood(es[0].key, Paths(es[0].val));
      assert GoodTokens([es[0].key]);
    }
  }

  lemma BelowGood(k: string, inner: seq<seq<string>>)
    requires k != "" && '.' !in k && forall p :: p in inner ==> GoodTokens(p)
    ensures forall p :: p in Below(k, inner) ==> GoodTokens(p)
  {
    forall p | p in Below(k, inner) ensures GoodTokens(p) {
      var i :| 0 <= i < |inner| && Below(k, inner)[i] == p;
      assert inner[i] in inner && p == [k] + inner[i];
    }
  }

  lemma JoinUnder(prefix: string, k: string, p: seq<string>)
    requires p != [] && k != ""
    ensures Under(Under(prefix, k), Join(p)) == Under(prefix, Join([k] + p))
  {
    assert ([k] + p)[1..] == p;
  }

  /** The strings listed are the spellings of the paths. */
  lemma {:induction false} CollectSpells(j: Json, prefix: string)
    requires ObjectTree(j)
    ensures Collect(j, prefix) == Spelled(prefix, Paths(j))
    decreases j
  {
    if j.Obj? {
      MembersSpell(j.entries, prefix);
    }
  }

  lemma {:induction false} MembersSpell(es: seq<Entry>, prefix: string)
    requires Members(es)
    ensures CollectMembers(es, prefix) == Spelled(prefix, MemberPaths(es))
    decreases es
  {
    hide Under, Spelled, Below, Collect, Join;
    if es != [] {
      var k, inner := es[0].key, Paths(es[0].val);
      var path := Under(prefix, k);
      CollectSpells(es[0].val, path);
      MembersSpell(es[1..], prefix);
      PathsGood(es[0].val);
      BelowSpells(prefix, k, inner);
      SpelledConcat(prefix, [[k]], Below(k, inner));
      SpelledConcat(prefix, [[k]] + Below(k, inner), MemberPaths(es[1..]));
      SpelledOne(prefix, k);
    } else {
      SpelledNone(prefix);
    }
  }

  lemma SpelledNone(prefix: string)
    ensures Spelled(prefix, []) == []
  {
  }

  lemma SpelledOne(prefix: string, k: string)
    ensures Spelled(prefix, [[k]]) == [Under(prefix, k)]
  {
  }

  lemma SpelledConcat(prefix: string, a: seq<seq<string>>, b: seq<seq<string>>)
    ensures Spelled(prefix, a + b) == Spelled(prefix, a) + Spelled(prefix, b)
  {
    hide Under, Join;
  }

  lemma BelowSpells(prefix: string, k: string, inner: seq<seq<string>>)
    requires k != "" && forall p :: p in inner ==> GoodTokens(p)
    ensures Spelled(Under(prefix, k), inner) == Spelled(prefix, Below(k, inner))
  {
    hide Under, Join;
    forall i | 0 <= i < |inner| ensures Under(Under(prefix, k), Join(inner[i])) == Under(prefix, Join([k] + inner[i])) {
      assert inner[i] in inner;
      JoinUnder(prefix, k, inner[i]);
    }
  }

  /** A path is listed exactly when it is not the root and it resolves. */
  lemma {:induction false} ListedIff(j: Json, p: seq<string>)
    requires ObjectTree(j)
    ensures p in Paths(j) <==> p != [] && Get(j, p).Some?
    decreases j
  {
    if j.Obj? {
      MemberListedIff(j.entries, p);
    }
  }

  lemma {:induction false} MemberListedIff(es: seq<Entry>, p: seq<string>)
    requires Members(es)
    ensures p in MemberPaths(es) <==> p != [] && Get(Obj(es), p).Some?
    decreases es
  {
    if es != [] {
      var k, val := es[0].key, es[0].val;
      MemberListedIff(es[1..], p);
      BelowIff(k, Paths(val), p);
      assert p in MemberPaths(es) <==> p == [k] || p in Below(k, Paths(val)) || p in MemberPaths(es[1..]);
      if p != [] {
        ListedIff(val, p[1..]);
        assert p == [p[0]] + p[1..];
        GetMember(es, p);
      }
    }
  }

  lemma GetMember(es: seq<Entry>, p: seq<string>)
    requires es != [] && p != []
    ensures Get(Obj(es), p) == if p[0] == es[0].key then Get(es[0].val, p[1..]) else Get(Obj(es[1..]), p)
    ensures Find(es[1..], p[0]).None? ==> Get(Obj(es[1..]), p).None?
  {
  }

  lemma BelowIff(k: string, ps: seq<seq<string>>, p: seq<string>)
    ensures p in Below(k, ps) <==> p != [] && p[0] == k && p[1..] in ps
  {
    if p in Below(k, ps) {
      var i :| 0 <= i < |ps| && Below(k, ps)[i] == p;
      assert p[1..] == ps[i];
    }
    if p != [] && p[0] == k && p[1..] in ps {
      var i :| 0 <= i < |ps| && ps[i] == p[1..];
      assert Below(k, ps)[i] == p;
    }
  }

  ghost predicate NoRepeat<T>(s: seq<T>) { forall i, j :: 0 <= i < j < |s| ==> s[i] != s[j] }

  lemma {:induction false} PathsOnce(j: Json)
    requires ObjectTree(j)
    ensures NoRepeat(Paths(j))
    decreases j
  {
    if j.Obj? {
      MemberPathsOnce(j.entries);
    }
  }

  lemma {:induction false} MemberPathsOnce(es: seq<Entry>)
    requires Members(es)
    ensures NoRepeat(MemberPaths(es))
    decreases es
  {
    if es != [] {
      var k, inner := es[0].key, Paths(es[0].val);
      var mine, rest := [[k]] + Below(k, inner), MemberPaths(es[1..]);
      PathsOnce(es[0].val);
      MemberPathsOnce(es[1..]);
      PathsGood(es[0].val);
      OnceBelow(k, inner);
      forall i | 0 <= i < |mine| ensures mine[i] !in rest {
        MemberListedIff(es[1..], mine[i]);
      }
      JoinOnce(mine, rest);
    }
  }

  lemma OnceBelow(k: string, inner: seq<seq<string>>)
    requires NoRepeat(inner) && forall p :: p in inner ==> GoodTokens(p)
    ensures NoRepeat([[k]] + Below(k, inner))
  {
    var mine := [[k]] + Below(k, inner);
    forall i, j | 0 <= i < j < |mine| ensures mine[i] != mine[j] {
      assert mine[j] == [k] + inner[j - 1] && inner[j - 1] in inner;
      assert mine[j][1..] == inner[j - 1];
      if i > 0 {
        assert mine[i][1..] == inner[i - 1];
      } else {
        assert mine[0][1..] == [];
      }
    }
  }

  lemma JoinOnce<T>(a: seq<T>, b: seq<T>)
    requires NoRepeat(a) && NoRepeat(b) && forall i :: 0 <= i < |a| ==> a[i] !in b
    ensures NoRepeat(a + b)
  {
    forall i, j | 0 <= i < j < |a + b| ensures (a + b)[i] != (a + b)[j] {
      assert j >= |a| ==> (a + b)[j] in b;
    }
  }

  /** On an object tree getAllKeys lists exactly the non-root paths that resolve, each once. */
  lemma {:induction false} AllKeysExact(j: Json)
    requires ObjectTree(j)
    ensures NoRepeat(Collect(j, ""))
    ensures forall s :: s in Collect(j, "") ==> s == Join(Split(s)) && s != "" && Get(j, Split(s)).Some?
    ensures forall p :: p != [] && Get(j, p).Some? ==> Join(p) in Collect(j, "") && Split(Join(p)) == p
  {
    var ps, keys := Paths(j), Collect(j, "");
    CollectSpells(j, "");
    PathsGood(j);
    PathsOnce(j);
    forall i | 0 <= i < |ps| ensures keys[i] == Join(ps[i]) && keys[i] != "" && Split(keys[i]) == ps[i] && Get(j, ps[i]).Some? {
      assert ps[i] in ps;
      ReadBack(ps[i]);
      ListedIff(j, ps[i]);
    }
    forall p | p != [] && Get(j, p).Some? ensures Join(p) in keys && Split(Join(p)) == p {
      ListedIff(j, p);
      var i :| 0 <= i < |ps| && ps[i] == p;
      assert keys[i] == Join(p);
    }
  }

  lemma ReadBack(p: seq<string>)
    requires GoodTokens(p)
    ensures Split(Join(p)) == p && Join(p) != ""
  {
    assert p[|p| - 1] in p && p[0] in p;
    SplitJoinIff(p);
  }

  method GetAllKeys(config: Json, prefix: string) returns (keys: seq<string>)
    ensures keys == if config.Obj? then Collect(config, prefix) else []
  {
    keys := [];
    if config.Obj? {
      keys := CollectKeysRecursive(config, prefix, keys);
    }
  }

  method CollectKeysRecursive(node: Json, currentPath: string, keys: seq<string>) returns (more: seq<string>)
    ensures more == keys + Collect(node, currentPath)
    decreases node
  {
    hide Collect, CollectMembers, CollectItems, Under, Indexed;
    more := keys;
    CollectIs(node, currentPath);
    assert keys + [] == keys;
    if node.Obj? {
      var i := 0;
      assert node.entries[0..] == node.entries;
      while i < |node.entries|
        invariant 0 <= i <= |node.entries|
        invariant more + CollectMembers(node.entries[i..], currentPath) == keys + Collect(node, currentPath)
      {
        MemberStep(node.entries, currentPath, i, more);
        var newPath := Under(currentPath, node.entries[i].key);
        more := more + [newPath];
        more := CollectKeysRecursive(node.entries[i].val, newPath, more);
        i := i + 1;
      }
      CollectNone(node.entries[i..], [], currentPath, i);
    } else if node.Arr? {
      var i := 0;
      assert node.items[0..] == node.items;
      while i < |node.items|
        invariant 0 <= i <= |node.items|
        invariant more + CollectItems(node.items[i..], currentPath, i) == keys + Collect(node, currentPath)
      {
        ItemStep(node.items, currentPath, i, more);
        more := CollectKeysRecursive(node.items[i], Indexed(currentPath, i), more);
        i := i + 1;
      }
      CollectNone([], node.items[i..], currentPath, i);
    }
  }

  lemma CollectIs(j: Json, prefix: string)
    ensures Collect(j, prefix) ==
      if j.Obj? then CollectMembers(j.entries, prefix) else if j.Arr? then CollectItems(j.items, prefix, 0) else []
  {
  }

  lemma CollectNone(es: seq<Entry>, items: seq<Json>, prefix: string, i: nat)
    ensures es == [] ==> CollectMembers(es, prefix) == []
    ensures items == [] ==> CollectItems(items, prefix, i) == []
  {
  }

  lemma MemberStep(es: seq<Entry>, prefix: string, i: nat, more: seq<string>)
    requires i < |es|
    ensures var path := Under(prefix, es[i].key);
      more + CollectMembers(es[i..], prefix) == more + [path] + Collect(es[i].val, path) + CollectMembers(es[i + 1..], prefix)
  {
    assert es[i..][1..] == es[i + 1..];
  }

  lemma ItemStep(items: seq<Json>, prefix: string, i: nat, more: seq<string>)
    requires i < |items|
    ensures more + CollectItems(items[i..], prefix, i) ==
      more + Collect(items[i], Indexed(prefix, i)) + CollectItems(items[i + 1..], prefix, i + 1)
  {
    assert items[i..][1..] == items[i + 1..];
  }
}
