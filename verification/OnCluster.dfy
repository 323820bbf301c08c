/**
 `ON CLUSTER` injection: where the clause goes, why injecting twice is injecting once on every text, and
 why every rendered statement gets it exactly once.
 */
module OnCluster {
  import opened Wrappers
  import opened SqlText
  import opened Codec

  // ----- anchors -----

  datatype Anchor =
    | CreateTable | CreateView | CreateMaterializedView | CreateDatabase | CreateDictionary | ReplaceDictionary | AlterTable
    | DropTable | DropView | DropDictionary | CreateFunction | DropDatabase | AttachTable | DetachTable | TruncateTable | OptimizeTable

  const ANCHORS := [
    CreateTable, CreateView, CreateMaterializedView, CreateDatabase, CreateDictionary, ReplaceDictionary, AlterTable,
    DropTable, DropView, DropDictionary, CreateFunction, DropDatabase, AttachTable, DetachTable, TruncateTable, OptimizeTable]

  function AnchorText(a: Anchor): string {
    match a
    case CreateTable => "CREATE TABLE "
    case CreateView => "CREATE VIEW "
    case CreateMaterializedView => "CREATE MATERIALIZED VIEW "
    case CreateDatabase => "CREATE DATABASE "
    case CreateDictionary => "CREATE DICTIONARY "
    case ReplaceDictionary => "CREATE OR REPLACE DICTIONARY "
    case AlterTable => "ALTER TABLE "
    case DropTable => "DROP TABLE "
    case DropView => "DROP VIEW "
    case DropDictionary => "DROP DICTIONARY "
    case CreateFunction => "CREATE FUNCTION "
    case DropDatabase => "DROP DATABASE "
    case AttachTable => "ATTACH TABLE "
    case DetachTable => "DETACH TABLE "
    case TruncateTable => "TRUNCATE TABLE "
    case OptimizeTable => "OPTIMIZE TABLE "
  }

  const TRAILING := ["RENAME TABLE ", "RENAME DICTIONARY ", "RENAME DATABASE ", "EXCHANGE TABLES ", "EXCHANGE DICTIONARIES "]

  /** The first anchor of the list the statement starts with. */
  function FirstAnchor(sql: string, anchors: seq<Anchor>): (r: Option<Anchor>)
    ensures r.Some? ==> AnchorText(r.value) <= sql
  {
    if anchors == [] then None
    else if AnchorText(anchors[0]) <= sql then Some(anchors[0])
    else FirstAnchor(sql, anchors[1..])
  }

  predicate Trails(sql: string) {
    exists i :: 0 <= i < |TRAILING| && TRAILING[i] <= sql
  }

  // ----- scanning -----

  function Skip(s: string, i: nat): nat
    decreases |s| - i
  {
    if i < |s| && IsSpace(s[i]) then Skip(s, i + 1) else i
  }

  /** The word stands here, in any case. */
  predicate WordAt(s: string, i: nat, w: string) {
    i + |w| <= |s| && forall k :: 0 <= k < |w| ==> Lower(s[i + k]) == Lower(w[k])
  }

  /** Behind the word and at least one space, or where it was when that is not there. */
  function PastWord(s: string, i: nat, w: string): nat {
    if WordAt(s, i, w) && Skip(s, i + |w|) > i + |w| then Skip(s, i + |w|) else i
  }

  /** The length of a leading `IF [NOT] EXISTS` guard with the spaces behind it. */
  function GuardEnd(s: string): nat {
    var a := PastWord(s, 0, "IF");
    var b := PastWord(s, a, "NOT");
    var c := PastWord(s, b, "EXISTS");
    if a == 0 || c == b then 0 else c
  }

  predicate EndsRef(c: char) {
    IsSpace(c) || c == ';' || c == '('
  }

  function RefEnd(s: string, i: nat): nat
    decreases |s| - i
  {
    if i < |s| && !EndsRef(s[i]) then RefEnd(s, i + 1) else i
  }

  /** `ON CLUSTER` as whole words, with spaces before and between. */
  predicate ClauseAt(s: string, i: nat) {
    var a := Skip(s, i);
    var b := PastWord(s, a, "ON");
    a > i && b > a && WordAt(s, b, "CLUSTER") && (b + 7 < |s| ==> !IsWord(s[b + 7]))
  }

  /** A clause that reaches from here to the end, up to spaces. */
  predicate ClauseToEnd(s: string, i: nat) {
    var b := PastWord(s, i, "ON");
    var c := PastWord(s, b, "CLUSTER");
    var d := SolidEnd(s, c);
    b > i && c > b && d > c && Skip(s, d) == |s|
  }

  function SolidEnd(s: string, i: nat): nat
    decreases |s| - i
  {
    if i < |s| && !IsSpace(s[i]) then SolidEnd(s, i + 1) else i
  }

  predicate EndsInClause(body: string) {
    exists i :: 0 <= i < |body| && (i > 0 ==> !IsWord(body[i - 1])) && ClauseToEnd(body, i)
  }

  // ----- injection -----

  function Clause(cluster: string): string {
    " ON CLUSTER '" + cluster + "'"
  }

  function Body(sql: string): string {
    if sql != "" && sql[|sql| - 1] == ';' then sql[..|sql| - 1] else sql
  }

  function Terminator(sql: string): string {
    if sql != "" && sql[|sql| - 1] == ';' then ";" else ""
  }

  /** Where the clause belongs: behind the object reference, if there is one. */
  function Slot(sql: string): Option<nat> {
    match FirstAnchor(sql, ANCHORS)
    case None => None
    case Some(a) =>
      var rest := sql[|AnchorText(a)|..];
      var g := GuardEnd(rest);
      if RefEnd(rest, g) > g then Some(|AnchorText(a)| + RefEnd(rest, g)) else None
  }

  function InsertAt(s: string, i: nat, t: string): string
    requires i <= |s|
  {
    s[..i] + t + s[i..]
  }

  lemma {:induction false} RefEndFits(s: string, i: nat)
    ensures i <= RefEnd(s, i) && (i <= |s| ==> RefEnd(s, i) <= |s|)
    ensures forall k :: i <= k < RefEnd(s, i) ==> k < |s| && !EndsRef(s[k])
    decreases |s| - i
  {
    if i < |s| && !EndsRef(s[i]) {
      RefEndFits(s, i + 1);
    }
  }

  lemma SlotFits(sql: string)
    ensures Slot(sql).Some? ==> 0 < Slot(sql).value <= |sql|
  {
    var a := FirstAnchor(sql, ANCHORS);
    if a.Some? {
      var rest := sql[|AnchorText(a.value)|..];
      RefEndFits(rest, GuardEnd(rest));
      hide GuardEnd, FirstAnchor;
    }
  }

  /** `injectOnClusterClause`. */
  function Inject(sql: string, cluster: string): string {
    if Trails(sql) then
      if EndsInClause(Body(sql)) then sql else Body(sql) + Clause(cluster) + Terminator(sql)
    else match Slot(sql)
      case None => sql
      case Some(k) =>
        SlotFits(sql);
        if ClauseAt(sql, k) then sql else InsertAt(sql, k, Clause(cluster))
  }

  /** Takes the clause out again, where injection would have put it. */
  function Eject(sql: string, cluster: string): string {
    var clause := Clause(cluster);
    if Trails(sql) then
      var body := Body(sql);
      if |clause| <= |body| && body[|body| - |clause|..] == clause then body[..|body| - |clause|] + Terminator(sql) else sql
    else match Slot(sql)
      case None => sql
      case Some(k) =>
        SlotFits(sql);
        if clause <= sql[k..] then sql[..k] + sql[k + |clause|..] else sql
  }

  // ----- one anchor at most -----

  /** Four letters of an anchor, which tell it from the others. */
  function Signature(a: Anchor): (char, char, char, char) {
    match a
    case CreateTable => ('C', 'E', 'T', 'A')
    case CreateView => ('C', 'E', 'V', 'I')
    case CreateMaterializedView => ('C', 'E', 'M', 'A')
    case CreateDatabase => ('C', 'E', 'D', 'A')
    case CreateDictionary => ('C', 'E', 'D', 'I')
    case ReplaceDictionary => ('C', 'E', 'O', 'R')
    case AlterTable => ('A', ' ', 'A', 'B')
    case DropTable => ('D', 'T', 'B', 'L')
    case DropView => ('D', 'V', 'E', 'W')
    case DropDictionary => ('D', 'D', 'C', 'T')
    case CreateFunction => ('C', 'E', 'F', 'U')
    case DropDatabase => ('D', 'D', 'T', 'A')
    case AttachTable => ('A', 'H', 'T', 'A')
    case DetachTable => ('D', 'H', 'T', 'A')
    case TruncateTable => ('T', 'A', 'E', ' ')
    case OptimizeTable => ('O', 'I', 'E', ' ')
  }

  lemma SignatureIsText(a: Anchor)
    ensures var t := AnchorText(a); |t| > 8 && (t[0], t[5], t[7], t[8]) == Signature(a)
  {
  }

  lemma SignatureTells(a: Anchor, b: Anchor)
    requires Signature(a) == Signature(b)
    ensures a == b
  {
  }

  lemma OneAnchor(sql: string, a: Anchor, b: Anchor)
    requires AnchorText(a) <= sql && AnchorText(b) <= sql
    ensures a == b
  {
    SignatureIsText(a);
    SignatureIsText(b);
    hide AnchorText;
    assert forall k :: 0 <= k < |AnchorText(a)| ==> sql[k] == AnchorText(a)[k];
    assert forall k :: 0 <= k < |AnchorText(b)| ==> sql[k] == AnchorText(b)[k];
    SignatureTells(a, b);
  }

  lemma {:induction false} SomeAnchorIsFirst(sql: string, anchors: seq<Anchor>, a: Anchor)
    requires a in anchors && AnchorText(a) <= sql
    ensures FirstAnchor(sql, anchors).Some?
  {
    hide AnchorText;
    if !(AnchorText(anchors[0]) <= sql) {
      SomeAnchorIsFirst(sql, anchors[1..], a);
    }
  }

  lemma AnchorIsListed(a: Anchor)
    ensures a in ANCHORS
  {
    match a
    case CreateTable => assert ANCHORS[0] == a;
    case CreateView => assert ANCHORS[1] == a;
    case CreateMaterializedView => assert ANCHORS[2] == a;
    case CreateDatabase => assert ANCHORS[3] == a;
    case CreateDictionary => assert ANCHORS[4] == a;
    case ReplaceDictionary => assert ANCHORS[5] == a;
    case AlterTable => assert ANCHORS[6] == a;
    case DropTable => assert ANCHORS[7] == a;
    case DropView => assert ANCHORS[8] == a;
    case DropDictionary => assert ANCHORS[9] == a;
    case CreateFunction => assert ANCHORS[10] == a;
    case DropDatabase => assert ANCHORS[11] == a;
    case AttachTable => assert ANCHORS[12] == a;
    case DetachTable => assert ANCHORS[13] == a;
    case TruncateTable => assert ANCHORS[14] == a;
    case OptimizeTable => assert ANCHORS[15] == a;
  }

  lemma TheAnchor(sql: string, a: Anchor)
    requires AnchorText(a) <= sql
    ensures FirstAnchor(sql, ANCHORS) == Some(a)
  {
    AnchorIsListed(a);
    hide AnchorText, FirstAnchor;
    SomeAnchorIsFirst(sql, ANCHORS, a);
    OneAnchor(sql, FirstAnchor(sql, ANCHORS).value, a);
  }

  lemma AnchoredDoesNotTrail(sql: string, a: Anchor)
    requires AnchorText(a) <= sql
    ensures !Trails(sql)
  {
    SignatureIsText(a);
    hide AnchorText;
    assert sql[0] == AnchorText(a)[0];
    forall i | 0 <= i < |TRAILING| ensures !(TRAILING[i] <= sql) {
      assert TRAILING[i][0] == 'R' || TRAILING[i][0] == 'E';
    }
  }

  // ----- texts that agree up to a place -----

  predicate Agree(s: string, t: string, n: nat) {
    n <= |s| && n <= |t| && forall k :: 0 <= k < n ==> s[k] == t[k]
  }

  lemma {:induction false} SkipFits(s: string, i: nat)
    ensures i <= Skip(s, i) && (i <= |s| ==> Skip(s, i) <= |s|)
    decreases |s| - i
  {
    if i < |s| && IsSpace(s[i]) {
      SkipFits(s, i + 1);
    }
  }

  lemma {:induction false} SkipAgrees(s: string, t: string, i: nat, n: nat)
    requires Agree(s, t, n) && Skip(s, i) < n
    ensures Skip(t, i) == Skip(s, i)
    decreases |s| - i
  {
    SkipFits(s, i);
    if i < |s| && IsSpace(s[i]) {
      SkipAgrees(s, t, i + 1, n);
    }
  }

  lemma PastWordAgrees(s: string, t: string, i: nat, w: string, n: nat)
    requires Agree(s, t, n) && i < PastWord(s, i, w) < n
    ensures PastWord(t, i, w) == PastWord(s, i, w)
  {
    SkipFits(s, i + |w|);
    hide Skip;
    SkipAgrees(s, t, i + |w|, n);
  }

  lemma OtherWord(s: string, i: nat, w: string)
    requires w != "" && (i >= |s| || Lower(s[i]) != Lower(w[0]))
    ensures PastWord(s, i, w) == i
  {
    hide Skip;
    assert !WordAt(s, i, w);
  }

  /** A guard is still there, and still ends there, when the text changes behind it. */
  lemma GuardAgrees(s: string, t: string, n: nat)
    requires Agree(s, t, n) && 0 < GuardEnd(s) < n
    ensures GuardEnd(t) == GuardEnd(s)
  {
    var a := PastWord(s, 0, "IF");
    var b := PastWord(s, a, "NOT");
    var c := PastWord(s, b, "EXISTS");
    PastWordGrows(s, 0, "IF");
    PastWordGrows(s, a, "NOT");
    PastWordGrows(s, b, "EXISTS");
    if b == a {
      assert Lower(s[a + 0]) == Lower("EXISTS"[0]);
      OtherWord(t, a, "NOT");
    }
    hide PastWord;
    PastWordAgrees(s, t, 0, "IF", n);
    if b > a {
      PastWordAgrees(s, t, a, "NOT", n);
    }
    PastWordAgrees(s, t, b, "EXISTS", n);
  }

  lemma PastWordGrows(s: string, i: nat, w: string)
    ensures PastWord(s, i, w) >= i
  {
  }

  // ----- the clause where it was put -----

  /** The text holds the clause at this place. */
  predicate Holds(s: string, k: nat, cluster: string) {
    var clause := Clause(cluster);
    k + |clause| <= |s| && forall j :: 0 <= j < |clause| ==> s[k + j] == clause[j]
  }

  lemma ClauseLetters(s: string, k: nat, cluster: string)
    requires Holds(s, k, cluster)
    ensures k + 13 < |s| && s[k] == ' ' && s[k + 1] == 'O' && s[k + 2] == 'N' && s[k + 3] == ' '
    ensures s[k + 4] == 'C' && s[k + 5] == 'L' && s[k + 6] == 'U' && s[k + 7] == 'S' && s[k + 8] == 'T' && s[k + 9] == 'E' && s[k + 10] == 'R'
    ensures s[k + 11] == ' ' && s[k + 12] == '\''
  {
    var clause := Clause(cluster);
    assert |clause| >= 14;
    assert clause[0] == ' ' && clause[1] == 'O' && clause[2] == 'N' && clause[3] == ' ';
    assert clause[4] == 'C' && clause[5] == 'L' && clause[6] == 'U' && clause[7] == 'S' && clause[8] == 'T' && clause[9] == 'E' && clause[10] == 'R';
    assert clause[11] == ' ' && clause[12] == '\'';
    hide Clause;
    assert forall j :: 0 <= j < |clause| ==> s[k + j] == clause[j];
  }

  lemma SkipOne(s: string, i: nat)
    requires i + 1 < |s| && s[i] == ' ' && !IsSpace(s[i + 1])
    ensures Skip(s, i) == i + 1
  {
  }

  lemma WordsStand(s: string, k: nat, cluster: string)
    requires Holds(s, k, cluster)
    ensures Skip(s, k) == k + 1 && PastWord(s, k + 1, "ON") == k + 4 && PastWord(s, k + 4, "CLUSTER") == k + 12
    ensures WordAt(s, k + 4, "CLUSTER") && !IsWord(s[k + 11])
  {
    ClauseLetters(s, k, cluster);
    hide Holds, Clause;
    SkipOne(s, k);
    SkipOne(s, k + 3);
    SkipOne(s, k + 11);
    hide Skip;
    assert WordAt(s, k + 1, "ON");
    assert WordAt(s, k + 4, "CLUSTER");
  }

  lemma ClauseStands(s: string, k: nat, cluster: string)
    requires Holds(s, k, cluster)
    ensures ClauseAt(s, k)
  {
    ClauseLetters(s, k, cluster);
    WordsStand(s, k, cluster);
    hide Skip, PastWord, WordAt, Holds;
  }

  predicate NoSpace(s: string) {
    forall i :: 0 <= i < |s| ==> !IsSpace(s[i])
  }

  lemma {:induction false} SolidToEnd(s: string, i: nat)
    requires i <= |s| && forall k :: i <= k < |s| ==> !IsSpace(s[k])
    ensures SolidEnd(s, i) == |s|
    decreases |s| - i
  {
    if i < |s| {
      SolidToEnd(s, i + 1);
    }
  }

  lemma ClauseEnds(body: string, cluster: string)
    requires NoSpace(cluster)
    ensures EndsInClause(body + Clause(cluster))
  {
    var s, k := body + Clause(cluster), |body|;
    assert Holds(s, k, cluster);
    ClauseLetters(s, k, cluster);
    WordsStand(s, k, cluster);
    forall j | k + 12 <= j < |s| ensures !IsSpace(s[j]) {
      assert s[j] == Clause(cluster)[j - k];
      if k + 13 <= j < |s| - 1 {
        assert Clause(cluster)[j - k] == cluster[j - k - 13];
      }
    }
    SolidToEnd(s, k + 12);
    assert Skip(s, |s|) == |s|;
    hide Holds, PastWord, SolidEnd, Skip, Clause;
    assert ClauseToEnd(s, k + 1);
  }

  // ----- the slot stays -----

  lemma {:induction false} RefEndIs(s: string, i: nat, r: nat)
    requires i <= r < |s| && EndsRef(s[r]) && forall k :: i <= k < r ==> !EndsRef(s[k])
    ensures RefEnd(s, i) == r
    decreases r - i
  {
    if i < r {
      RefEndIs(s, i + 1, r);
    }
  }

  /** No guard appears when the clause is put behind the reference, not even behind an object called IF. */
  lemma NoGuardAppears(s: string, t: string, r: nat)
    requires 0 < r <= |s| && Agree(s, t, r) && GuardEnd(s) == 0 && (forall k :: 0 <= k < r ==> !EndsRef(s[k]))
    requires r + 1 < |t| && t[r] == ' ' && t[r + 1] == 'O'
    ensures GuardEnd(t) == 0
  {
    var a := PastWord(t, 0, "IF");
    if a != 0 {
      SkipFits(t, 2);
      assert IsSpace(t[2]) && Lower(t[0]) == Lower("IF"[0]) && Lower(t[0 + 1]) == Lower("IF"[1]);
      assert r == 2;
      SkipOne(t, 2);
      OtherWord(t, 3, "NOT");
      OtherWord(t, 3, "EXISTS");
    }
  }

  lemma GuardStays(s: string, t: string, r: nat)
    requires RefEnd(s, GuardEnd(s)) == r > GuardEnd(s) && r <= |s| && Agree(s, t, r) && r + 1 < |t| && t[r] == ' ' && t[r + 1] == 'O'
    ensures GuardEnd(t) == GuardEnd(s) && RefEnd(t, GuardEnd(t)) == r
  {
    RefEndFits(s, GuardEnd(s));
    var g := GuardEnd(s);
    hide RefEnd, GuardEnd;
    if g == 0 {
      NoGuardAppears(s, t, r);
    } else {
      GuardAgrees(s, t, r);
    }
    RefEndIs(t, g, r);
  }

  lemma InsertedText(s: string, k: nat, clause: string)
    requires k <= |s|
    ensures var t := InsertAt(s, k, clause); Agree(s, t, k) && |t| == |s| + |clause| && forall j :: 0 <= j < |clause| ==> t[k + j] == clause[j]
  {
  }

  lemma PrefixStays(p: string, s: string, k: nat, clause: string)
    requires p <= s && |p| <= k <= |s|
    ensures p <= InsertAt(s, k, clause)
  {
  }

  lemma InsertedHolds(s: string, k: nat, cluster: string)
    requires k <= |s|
    ensures Holds(InsertAt(s, k, Clause(cluster)), k, cluster)
  {
    InsertedText(s, k, Clause(cluster));
    hide Clause, InsertAt;
  }

  lemma InsertBehind(s: string, m: nat, k: nat, clause: string)
    requires m <= k <= |s|
    ensures InsertAt(s, k, clause)[m..] == InsertAt(s[m..], k - m, clause)
  {
    assert InsertAt(s, k, clause) == s[..m] + (s[m..k] + clause + s[k..]);
    assert s[m..][..k - m] == s[m..k] && s[m..][k - m..] == s[k..];
  }

  lemma SlotOfAnchored(sql: string, a: Anchor)
    requires AnchorText(a) <= sql
    ensures var rest := sql[|AnchorText(a)|..];
      Slot(sql) == if RefEnd(rest, GuardEnd(rest)) > GuardEnd(rest) then Some(|AnchorText(a)| + RefEnd(rest, GuardEnd(rest))) else None
  {
    TheAnchor(sql, a);
    hide FirstAnchor, AnchorText, GuardEnd, RefEnd;
  }

  lemma RestStays(rest: string, r: nat, cluster: string)
    requires RefEnd(rest, GuardEnd(rest)) == r > GuardEnd(rest) && r <= |rest|
    ensures var u := InsertAt(rest, r, Clause(cluster));
      GuardEnd(u) == GuardEnd(rest) && RefEnd(u, GuardEnd(u)) == r
  {
    var clause := Clause(cluster);
    var u := InsertAt(rest, r, clause);
    InsertedText(rest, r, clause);
    hide RefEnd, GuardEnd, InsertAt;
    assert Holds(u, r, cluster);
    ClauseLetters(u, r, cluster);
    hide Clause, Holds;
    GuardStays(rest, u, r);
  }

  /** Behind the inserted clause the slot is where it was, and the clause stands in it. */
  lemma SlotStays(sql: string, cluster: string)
    requires Slot(sql).Some? && Slot(sql).value <= |sql|
    ensures var k := Slot(sql).value;
      var t := InsertAt(sql, k, Clause(cluster));
      Slot(t) == Slot(sql) && Holds(t, k, cluster) && !Trails(t)
  {
    var k := Slot(sql).value;
    var a := FirstAnchor(sql, ANCHORS).value;
    SlotFits(sql);
    SlotOfAnchored(sql, a);
    hide *;
    AnchoredSlotStays(sql, a, k, cluster);
    InsertedHolds(sql, k, cluster);
  }

  lemma AnchoredSlotStays(sql: string, a: Anchor, k: nat, cluster: string)
    requires AnchorText(a) <= sql && k <= |sql| && Slot(sql) == Some(k)
    ensures var t := InsertAt(sql, k, Clause(cluster)); Slot(t) == Some(k) && !Trails(t)
  {
    hide *;
    SlotOfAnchored(sql, a);
    var m := |AnchorText(a)|;
    var rest := sql[m..];
    var t := InsertAt(sql, k, Clause(cluster));
    RefEndFits(rest, GuardEnd(rest));
    RestStays(rest, k - m, cluster);
    InsertBehind(sql, m, k, Clause(cluster));
    PrefixStays(AnchorText(a), sql, k, Clause(cluster));
    SlotOfAnchored(t, a);
    AnchoredDoesNotTrail(t, a);
  }

  // ----- twice is once -----

  lemma TrailingTexts(i: nat)
    requires i < |TRAILING|
    ensures TRAILING[i] != "" && TRAILING[i][|TRAILING[i]| - 1] == ' '
  {
  }

  lemma TrailStays(sql: string, clause: string)
    requires Trails(sql)
    ensures Trails(Body(sql) + clause + Terminator(sql))
  {
    var i :| 0 <= i < |TRAILING| && TRAILING[i] <= sql;
    TrailingTexts(i);
    var p := TRAILING[i];
    assert p <= Body(sql) by {
      if |p| == |sql| {
        assert p == sql;
      }
    }
    assert TRAILING[i] <= Body(sql) + clause + Terminator(sql);
  }

  lemma BodyOfTrailing(sql: string, cluster: string)
    ensures var t := Body(sql) + Clause(cluster) + Terminator(sql);
      Body(t) == Body(sql) + Clause(cluster) && Terminator(t) == Terminator(sql)
  {
    var t := Body(sql) + Clause(cluster) + Terminator(sql);
    var clause := Clause(cluster);
    assert clause[|clause| - 1] == '\'';
    hide Clause;
    if Terminator(sql) == ";" {
      assert t[..|t| - 1] == Body(sql) + clause;
    } else {
      assert t == Body(sql) + clause;
    }
  }

  lemma TrailingTwice(sql: string, cluster: string)
    requires NoSpace(cluster) && Trails(sql)
    ensures Inject(Inject(sql, cluster), cluster) == Inject(sql, cluster)
  {
    hide Trails, EndsInClause, Body, Terminator, Clause;
    if !EndsInClause(Body(sql)) {
      TrailStays(sql, Clause(cluster));
      BodyOfTrailing(sql, cluster);
      ClauseEnds(Body(sql), cluster);
    }
  }

  /** Injecting twice is injecting once, on every text. */
  lemma InjectIsIdempotent(sql: string, cluster: string)
    requires NoSpace(cluster)
    ensures Inject(Inject(sql, cluster), cluster) == Inject(sql, cluster)
  {
    SlotFits(sql);
    hide NoSpace, Slot, Trails, EndsInClause, Clause, ClauseAt, InsertAt, Body, Terminator;
    if Trails(sql) {
      TrailingTwice(sql, cluster);
    } else if Slot(sql).Some? && !ClauseAt(sql, Slot(sql).value) {
      SlotStays(sql, cluster);
      ClauseStands(InsertAt(sql, Slot(sql).value, Clause(cluster)), Slot(sql).value, cluster);
    }
  }

  // ----- taking it out again -----

  lemma TakenOut(s: string, k: nat, clause: string)
    requires k <= |s|
    ensures var t := InsertAt(s, k, clause); clause <= t[k..] && t[..k] + t[k + |clause|..] == s
  {
    var t := InsertAt(s, k, clause);
    assert t[k..] == clause + s[k..];
    assert t[k + |clause|..] == s[k..] && t[..k] == s[..k];
  }

  lemma TrailingTakenOut(sql: string, cluster: string)
    requires Trails(sql) && !EndsInClause(Body(sql))
    ensures Eject(Inject(sql, cluster), cluster) == sql
  {
    hide Trails, EndsInClause, Clause;
    var clause := Clause(cluster);
    TrailStays(sql, clause);
    BodyOfTrailing(sql, cluster);
    assert Body(sql) + Terminator(sql) == sql;
    hide Body, Terminator;
    var b := Body(sql) + clause;
    assert b[|b| - |clause|..] == clause && b[..|b| - |clause|] == Body(sql);
  }

  /** Whatever injection changed, taking the clause out gives the statement back. */
  lemma EjectUndoesInject(sql: string, cluster: string)
    requires Inject(sql, cluster) != sql
    ensures Eject(Inject(sql, cluster), cluster) == sql && |Inject(sql, cluster)| == |sql| + |Clause(cluster)|
  {
    SlotFits(sql);
    hide Slot, Trails, EndsInClause, Clause, ClauseAt;
    if Trails(sql) {
      TrailingTakenOut(sql, cluster);
    } else {
      var k := Slot(sql).value;
      SlotStays(sql, cluster);
      TakenOut(sql, k, Clause(cluster));
      hide InsertAt;
    }
  }

  // ----- rendered statements -----

  /** What the renderers put between the verb and the name. */
  datatype Guard = NoGuard | IfExists | IfNotExists

  function GuardText(g: Guard): string {
    match g
    case NoGuard => ""
    case IfExists => "IF EXISTS "
    case IfNotExists => "IF NOT EXISTS "
  }

  predicate IsName(name: string) {
    name != "" && forall k :: 0 <= k < |name| ==> !EndsRef(name[k])
  }

  /** What the renderers put behind the name: a space, a newline or the terminator, and no clause yet. */
  predicate IsTail(tail: string) {
    tail != "" && (tail[0] == ' ' || tail[0] == '\n' || tail[0] == ';') && !ClauseAt(tail, 0)
  }

  lemma {:induction false} SkipGoes(s: string, t: string, i: nat)
    ensures Skip(s + t, |s| + i) == |s| + Skip(t, i)
    decreases |t| - i
  {
    if i < |t| && IsSpace(t[i]) {
      assert (s + t)[|s| + i] == t[i];
      SkipGoes(s, t, i + 1);
    } else if i < |t| {
      assert (s + t)[|s| + i] == t[i];
    }
  }

  lemma GuardOfRendered(g: Guard, name: string, tail: string)
    requires IsName(name) && IsTail(tail) && (g.NoGuard? ==> !WordAt(name, 0, "IF") || |name| != 2)
    ensures GuardEnd(GuardText(g) + name + tail) == |GuardText(g)|
  {
    var s := GuardText(g) + name + tail;
    assert s[|GuardText(g)|] == name[0];
    if g.NoGuard? {
      assert s == name + tail;
      UnguardedHasNone(name, tail);
    } else if g.IfExists? {
      IfExistsStands(s);
    } else {
      IfNotExistsStands(s);
    }
  }

  lemma UnguardedHasNone(name: string, tail: string)
    requires IsName(name) && IsTail(tail) && !(WordAt(name, 0, "IF") && |name| == 2)
    ensures GuardEnd(name + tail) == 0
  {
    var s := name + tail;
    assert PastWord(s, 0, "IF") == 0 by {
      if |name| == 1 {
        assert s[0 + 1] == tail[0] && Lower(tail[0]) != Lower("IF"[1]);
        assert !WordAt(s, 0, "IF");
      } else if |name| == 2 {
        assert s[0 + 0] == name[0] && s[0 + 1] == name[1];
        ShortWord(name, s);
      } else {
        assert s[2] == name[2];
        assert Skip(s, 2) == 2;
      }
    }
  }

  lemma ShortWord(name: string, s: string)
    requires |name| == 2 <= |s| && name[0] == s[0] && name[1] == s[1]
    ensures WordAt(s, 0, "IF") <==> WordAt(name, 0, "IF")
  {
    assert s[0 + 0] == name[0 + 0] && s[0 + 1] == name[0 + 1];
  }

  lemma IfExistsStands(s: string)
    requires |s| > 10 && s[..10] == "IF EXISTS " && !IsSpace(s[10])
    ensures GuardEnd(s) == 10
  {
    assert forall k :: 0 <= k < 10 ==> s[k] == s[..10][k];
    SkipOne(s, 2);
    OtherWord(s, 3, "NOT");
    SkipOne(s, 9);
    hide Skip;
    assert WordAt(s, 0, "IF") && WordAt(s, 3, "EXISTS");
  }

  lemma IfNotExistsStands(s: string)
    requires |s| > 14 && s[..14] == "IF NOT EXISTS " && !IsSpace(s[14])
    ensures GuardEnd(s) == 14
  {
    assert forall k :: 0 <= k < 14 ==> s[k] == s[..14][k];
    SkipOne(s, 2);
    SkipOne(s, 6);
    SkipOne(s, 13);
    hide Skip;
    assert WordAt(s, 0, "IF") && WordAt(s, 3, "NOT") && WordAt(s, 7, "EXISTS");
  }

  lemma WordGoes(s: string, t: string, i: nat, w: string)
    ensures WordAt(s + t, |s| + i, w) <==> WordAt(t, i, w)
  {
    if i + |w| <= |t| {
      assert forall k :: 0 <= k < |w| ==> (Lower((s + t)[|s| + i + k]) == Lower(w[k]) <==> Lower(t[i + k]) == Lower(w[k]));
    }
  }

  lemma PastWordGoes(s: string, t: string, i: nat, w: string)
    ensures PastWord(s + t, |s| + i, w) == |s| + PastWord(t, i, w)
  {
    hide Skip, WordAt;
    WordGoes(s, t, i, w);
    SkipGoes(s, t, i + |w|);
  }

  lemma NoClauseYet(head: string, tail: string)
    requires IsTail(tail)
    ensures !ClauseAt(head + tail, |head|)
  {
    var a := Skip(tail, 0);
    var b := PastWord(tail, a, "ON");
    hide Skip, PastWord, WordAt, IsWord;
    SkipGoes(head, tail, 0);
    PastWordGoes(head, tail, a, "ON");
    WordGoes(head, tail, b, "CLUSTER");
    assert b + 7 < |tail| ==> (head + tail)[|head| + b + 7] == tail[b + 7];
  }

  lemma {:induction false} RefEndGoes(s: string, t: string, i: nat)
    ensures RefEnd(s + t, |s| + i) == |s| + RefEnd(t, i)
    decreases |t| - i
  {
    if i < |t| {
      assert (s + t)[|s| + i] == t[i];
      if !EndsRef(t[i]) {
        RefEndGoes(s, t, i + 1);
      }
    }
  }

  lemma RefOfRendered(guard: string, name: string, tail: string)
    requires IsName(name) && IsTail(tail)
    ensures RefEnd(guard + name + tail, |guard|) == |guard| + |name|
  {
    RefEndIs(name + tail, 0, |name|);
    hide RefEnd;
    RefEndGoes(guard, name + tail, 0);
    Assoc(guard, name, tail);
  }

  lemma Cut(s: string, t: string)
    ensures (s + t)[..|s|] == s && (s + t)[|s|..] == t && s <= s + t
  {
  }

  lemma SlotOfRendered(a: Anchor, g: Guard, name: string, tail: string)
    requires IsName(name) && IsTail(tail) && (g.NoGuard? ==> !(WordAt(name, 0, "IF") && |name| == 2))
    ensures var sql := AnchorText(a) + (GuardText(g) + name + tail);
      Slot(sql) == Some(|AnchorText(a)| + |GuardText(g)| + |name|) && !Trails(sql)
  {
    hide *;
    GuardOfRendered(g, name, tail);
    RefOfRendered(GuardText(g), name, tail);
    var rest := GuardText(g) + name + tail;
    Cut(AnchorText(a), rest);
    SomethingNamed(name);
    SlotOfAnchored(AnchorText(a) + rest, a);
    AnchoredDoesNotTrail(AnchorText(a) + rest, a);
  }

  lemma SomethingNamed(name: string)
    requires IsName(name)
    ensures |name| > 0
  {
  }

  /**
   Every statement that is a verb, an optional guard, a plain name and a tail gets the clause right behind
   the name, once.
   */
  lemma RenderedIsTargeted(a: Anchor, g: Guard, name: string, tail: string, cluster: string)
    requires IsName(name) && IsTail(tail) && (g.NoGuard? ==> !(WordAt(name, 0, "IF") && |name| == 2))
    ensures var head := AnchorText(a) + (GuardText(g) + name);
      Inject(head + tail, cluster) == head + Clause(cluster) + tail
  {
    hide *;
    var head := AnchorText(a) + (GuardText(g) + name);
    SlotOfRendered(a, g, name, tail);
    NoClauseYet(head, tail);
    Assoc(AnchorText(a), GuardText(g) + name, tail);
    Cut(head, tail);
    InjectsAt(head + tail, |head|, cluster);
  }

  lemma InjectsAt(sql: string, k: nat, cluster: string)
    requires !Trails(sql) && Slot(sql) == Some(k) && k <= |sql| && !ClauseAt(sql, k)
    ensures Inject(sql, cluster) == sql[..k] + Clause(cluster) + sql[k..]
  {
    hide Trails, Slot, ClauseAt, Clause;
  }

  // ----- the verbs, as they are written -----

  const VERBS := [
    "CREATE TABLE ", "CREATE VIEW ", "CREATE MATERIALIZED VIEW ", "CREATE DATABASE ", "CREATE DICTIONARY ", "CREATE OR REPLACE DICTIONARY ",
    "ALTER TABLE ", "DROP TABLE ", "DROP VIEW ", "DROP DICTIONARY ", "CREATE FUNCTION ", "DROP DATABASE ", "ATTACH TABLE ", "DETACH TABLE ",
    "TRUNCATE TABLE ", "OPTIMIZE TABLE "]

  const GUARDS := ["", "IF EXISTS ", "IF NOT EXISTS "]

  lemma AnchorsAreVerbs(i: nat)
    requires i < |VERBS|
    ensures |ANCHORS| == |VERBS| && AnchorText(ANCHORS[i]) == VERBS[i]
  {
    if i < 8 {
      FirstVerbs(i);
    } else {
      LastVerbs(i);
    }
  }

  lemma FirstVerbs(i: nat)
    requires i < 8
    ensures AnchorText(ANCHORS[i]) == VERBS[i]
  {
  }

  lemma LastVerbs(i: nat)
    requires 8 <= i < |VERBS|
    ensures AnchorText(ANCHORS[i]) == VERBS[i]
  {
  }

  lemma GuardsAreTexts(j: nat) returns (g: Guard)
    requires j < |GUARDS|
    ensures GuardText(g) == GUARDS[j] && (g.NoGuard? <==> GUARDS[j] == "")
  {
    g := if j == 0 then NoGuard else if j == 1 then IfExists else IfNotExists;
  }

  /** The same for every verb and guard, spelled out: the clause stands behind the name, once. */
  lemma ListedVerbIsTargeted(i: nat, j: nat, name: string, tail: string, cluster: string)
    requires i < |VERBS| && j < |GUARDS| && IsName(name) && IsTail(tail)
    requires GUARDS[j] == "" ==> !(WordAt(name, 0, "IF") && |name| == 2)
    ensures Inject(VERBS[i] + (GUARDS[j] + name) + tail, cluster) == VERBS[i] + (GUARDS[j] + name) + (" ON CLUSTER '" + cluster + "'") + tail
  {
    AnchorsAreVerbs(i);
    var g := GuardsAreTexts(j);
    ClauseIs(cluster);
    hide *;
    RenderedIsTargeted(ANCHORS[i], g, name, tail, cluster);
  }

  lemma ClauseIs(cluster: string)
    ensures Clause(cluster) == " ON CLUSTER '" + cluster + "'"
  {
  }

  // ----- renames and exchanges -----

  const RENAMES := ["RENAME TABLE ", "RENAME DICTIONARY ", "RENAME DATABASE ", "EXCHANGE TABLES ", "EXCHANGE DICTIONARIES "]

  lemma {:induction false} SolidStops(s: string, i: nat)
    ensures i <= SolidEnd(s, i) && (i <= |s| ==> SolidEnd(s, i) <= |s|)
    ensures forall k :: i <= k < SolidEnd(s, i) ==> k < |s| && !IsSpace(s[k])
    decreases |s| - i
  {
    if i < |s| && !IsSpace(s[i]) {
      SolidStops(s, i + 1);
    }
  }

  lemma {:induction false} SkipSkips(s: string, i: nat)
    ensures i <= Skip(s, i) && (i <= |s| ==> Skip(s, i) <= |s|)
    ensures forall k :: i <= k < Skip(s, i) ==> k < |s| && IsSpace(s[k])
    decreases |s| - i
  {
    if i < |s| && IsSpace(s[i]) {
      SkipSkips(s, i + 1);
    }
  }

  /** A clause at the end of a text whose last word stands behind one space: the word before ends as `CLUSTER` does. */
  lemma ClauseBeforeLastWord(body: string, n: nat, i: nat)
    requires 2 <= n < |body| && body[n - 1] == ' ' && !IsSpace(body[n - 2]) && (forall k :: n <= k < |body| ==> !IsSpace(body[k]))
    requires ClauseToEnd(body, i)
    ensures Lower(body[n - 2]) == 'r'
  {
    var b := PastWord(body, i, "ON");
    var c := PastWord(body, b, "CLUSTER");
    var d := SolidEnd(body, c);
    SkipSkips(body, d);
    SolidStops(body, c);
    SkipSkips(body, b + 7);
    assert Lower("CLUSTER"[6]) == 'r';
    hide Skip, SolidEnd, ClauseToEnd;
    assert IsSpace(body[c - 1]) && !IsSpace(body[c]) && WordAt(body, b, "CLUSTER") && c > b + 7;
    assert Lower(body[b + 6]) == Lower("CLUSTER"[6]);
    assert d == |body|;
    assert c == n;
    assert b + 7 == n - 1;
  }

  /** Behind a solid last word that one space parts from a word that does not end in `r` there is no clause. */
  lemma NoClauseAtEnd(head: string, last: string)
    requires last != "" && NoSpace(last) && head != "" && !IsSpace(head[|head| - 1]) && Lower(head[|head| - 1]) != 'r'
    ensures !EndsInClause(head + " " + last)
  {
    var body := head + " " + last;
    var n := |head| + 1;
    assert body[|head| - 1] == head[|head| - 1] && body[|head|] == ' ';
    assert forall k :: 0 <= k < |last| ==> body[n + k] == last[k];
    assert forall k :: n <= k < |body| ==> body[k] == last[k - n];
    forall i | 0 <= i < |body| ensures !ClauseToEnd(body, i) {
      if ClauseToEnd(body, i) {
        ClauseBeforeLastWord(body, n, i);
      }
    }
  }

  lemma RenamesTrail(i: nat, rest: string)
    requires i < |RENAMES|
    ensures Trails(RENAMES[i] + rest)
  {
    assert |TRAILING| == |RENAMES| && TRAILING[i] == RENAMES[i];
    assert TRAILING[i] <= RENAMES[i] + rest;
  }

  /** `a TO b`, `a AND b`: the clause stands at the very end of the statement, in front of its terminator. */
  lemma RenameIsTargeted(i: nat, from: string, link: string, to: string, cluster: string)
    requires i < |RENAMES| && (link == "TO" || link == "AND") && to != "" && NoSpace(to)
    ensures var body := RENAMES[i] + from + " " + link + " " + to;
      Inject(body + ";", cluster) == body + (" ON CLUSTER '" + cluster + "'") + ";"
  {
    var head := RENAMES[i] + from + " " + link;
    var body := head + " " + to;
    RenamesTrail(i, from + " " + link + " " + to + ";");
    assert RENAMES[i] + (from + " " + link + " " + to + ";") == body + ";";
    LinkEnds(RENAMES[i] + from + " ", link);
    NoClauseAtEnd(head, to);
    assert (body + ";")[..|body|] == body;
    ClauseIs(cluster);
    hide Trails, EndsInClause, Clause, Slot;
  }

  lemma LinkEnds(front: string, link: string)
    requires link == "TO" || link == "AND"
    ensures var head := front + link; head != "" && !IsSpace(head[|head| - 1]) && Lower(head[|head| - 1]) != 'r'
  {
  }
}
