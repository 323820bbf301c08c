/**
 The statements of a migration plan as the renderers of `sql.ts` and the planner begin them, and why each
 of them gets the `ON CLUSTER` clause exactly once, right behind the name of its object.
 */
module PlannedSql {
  import opened Wrappers
  import P = Planner
  import C = OnCluster
  import Codec
  import SqlText

  /** What a statement holds behind the words below: column texts, engine, keys, queries. */
  type Rest = P.Op -> string

  function CreateVerb(d: P.Definition, replace: bool): string {
    match d
    case Table(_, _, _, _, _, _, _) => "CREATE TABLE "
    case View(_, _) => "CREATE VIEW "
    case MaterializedView(_, _, _, _) => "CREATE MATERIALIZED VIEW "
    case Dictionary(_, _, _) => if replace then "CREATE OR REPLACE DICTIONARY " else "CREATE DICTIONARY "
  }

  /** A materialized view is dropped as the table it is. */
  function Verb(op: P.Op): string {
    match op
    case Drop(ViewKind, _) => "DROP VIEW "
    case Drop(DictionaryKind, _) => "DROP DICTIONARY "
    case Drop(_, _) => "DROP TABLE "
    case CreateDatabase(_) => "CREATE DATABASE "
    case Create(d, replace) => CreateVerb(d, replace)
    case _ => "ALTER TABLE "
  }

  /** A dictionary that is replaced is the one creation without a guard. */
  function GuardOf(op: P.Op): string {
    match op
    case Drop(_, _) => "IF EXISTS "
    case CreateDatabase(_) => "IF NOT EXISTS "
    case Create(d, replace) => if d.Dictionary? && replace then "" else "IF NOT EXISTS "
    case _ => ""
  }

  function Qualified(r: P.Ref): string {
    r.database + "." + r.name
  }

  function Name(op: P.Op): string {
    match op
    case Drop(_, r) => Qualified(r)
    case CreateDatabase(d) => d
    case Create(d, _) => Qualified(d.ref)
    case ModifyRefresh(r, _) => Qualified(r)
    case AddPart(r, _, _) => Qualified(r)
    case ModifyPart(r, _, _) => Qualified(r)
    case RemoveCodec(r, _) => Qualified(r)
    case RemovePart(r, _) => Qualified(r)
  }

  /** The words behind the name of a creation; a refresh rule stands before the target of its view. */
  function CreateWords(d: P.Definition): string {
    match d
    case Table(_, _, _, _, _, _, _) => "\n(\n  "
    case View(_, _) => " AS\n"
    case MaterializedView(_, _, _, refresh) => if refresh.Some? then "\nREFRESH " else " TO "
    case Dictionary(_, _, _) => "\n(\n  "
  }

  function GroupWord(g: P.Group): string {
    match g
    case Columns => "COLUMN "
    case Indexes => "INDEX "
    case Projections => "PROJECTION "
  }

  /** A part that is no member, setting or TTL is never altered by itself. */
  function Words(op: P.Op): string {
    match op
    case Drop(MaterializedViewKind, _) => " SYNC"
    case Drop(_, _) => ""
    case CreateDatabase(_) => ""
    case Create(d, _) => CreateWords(d)
    case ModifyRefresh(_, _) => " MODIFY REFRESH "
    case AddPart(_, Member(g, _), _) => " ADD " + GroupWord(g) + "IF NOT EXISTS "
    case AddPart(_, _, _) => " ADD "
    case ModifyPart(_, Setting(_), _) => " MODIFY SETTING "
    case ModifyPart(_, Ttl, _) => " MODIFY TTL "
    case ModifyPart(_, _, _) => " MODIFY COLUMN "
    case RemoveCodec(_, _) => " MODIFY COLUMN "
    case RemovePart(_, Member(g, _)) => " DROP " + GroupWord(g) + "IF EXISTS "
    case RemovePart(_, Setting(_)) => " RESET SETTING "
    case RemovePart(_, _) => " REMOVE TTL"
  }

  /** Drops, database creations and a removed TTL end behind their words. */
  predicate Ends(op: P.Op) {
    op.Drop? || op.CreateDatabase? || (op.RemovePart? && op.part.Ttl?)
  }

  function Tail(op: P.Op, rest: Rest): string {
    Words(op) + (if Ends(op) then "" else rest(op)) + ";"
  }

  function Render(op: P.Op, rest: Rest): string {
    Verb(op) + (GuardOf(op) + Name(op)) + Tail(op, rest)
  }

  /** The statement with the clause behind the name. */
  function Targeted(op: P.Op, rest: Rest, cluster: string): string {
    Verb(op) + (GuardOf(op) + Name(op)) + (" ON CLUSTER '" + cluster + "'") + Tail(op, rest)
  }

  // ----- every tail is one that injection recognises -----

  /** Behind one leading space or newline stands a letter or sign that begins no clause. */
  predicate PlainStart(t: string) {
    |t| > 0 && (t[0] == ';' || (|t| > 1 && (t[0] == ' ' || t[0] == '\n') && !SqlText.IsSpace(t[1]) && Codec.Lower(t[1]) != 'o'))
  }

  lemma PlainIsTail(t: string)
    requires PlainStart(t)
    ensures C.IsTail(t)
  {
    var a := C.Skip(t, 0);
    if t[0] != ';' {
      assert C.Skip(t, 1) == 1;
      C.OtherWord(t, 1, "ON");
    }
  }

  lemma WordsArePlain(op: P.Op)
    ensures Words(op) == "" || PlainStart(Words(op))
    ensures Words(op) == "" ==> Ends(op)
  {
  }

  lemma TailIsPlain(op: P.Op, rest: Rest)
    ensures C.IsTail(Tail(op, rest))
  {
    WordsArePlain(op);
    var t := Tail(op, rest);
    if Words(op) != "" {
      assert t[0] == Words(op)[0];
      if t[0] != ';' {
        assert t[1] == Words(op)[1];
      }
    }
    hide Words, Ends;
    PlainIsTail(t);
  }

  lemma NoDotInIf(name: string, i: nat)
    requires i < |name| && name[i] == '.'
    ensures !(C.WordAt(name, 0, "IF") && |name| == 2)
  {
    var w := "IF";
    assert Codec.Lower(w[0]) == 'i' && Codec.Lower(w[1]) == 'f';
    assert i < 2 ==> Codec.Lower(name[0 + i]) != Codec.Lower(w[i]);
  }

  /** Only alterations and the replacement of a dictionary have no guard; they name `database.name`. */
  lemma NameIsNoGuard(op: P.Op)
    requires GuardOf(op) == ""
    ensures !(C.WordAt(Name(op), 0, "IF") && |Name(op)| == 2)
  {
    var r := if op.Create? then op.def.ref else op.ref;
    assert Name(op) == r.database + "." + r.name;
    assert Name(op)[|r.database|] == '.';
    NoDotInIf(Name(op), |r.database|);
  }

  /**
   Every statement of every plan is sent to the whole cluster: injection puts the clause behind the name
   of the object and nowhere else, whenever that name holds no space, semicolon or parenthesis.
   */
  lemma EveryStatementIsTargeted(op: P.Op, rest: Rest, cluster: string)
    requires C.IsName(Name(op))
    ensures C.Inject(Render(op, rest), cluster) == Targeted(op, rest, cluster)
  {
    TailIsPlain(op, rest);
    if GuardOf(op) == "" {
      NameIsNoGuard(op);
    }
    var i, j := VerbIsListed(op);
    hide *;
    C.ListedVerbIsTargeted(i, j, Name(op), Tail(op, rest), cluster);
    Unfold(op, rest, cluster);
  }

  lemma VerbIsListed(op: P.Op) returns (i: nat, j: nat)
    ensures i < |C.VERBS| && C.VERBS[i] == Verb(op)
    ensures j < |C.GUARDS| && C.GUARDS[j] == GuardOf(op)
  {
    j := match op
         case Drop(_, _) => 1
         case CreateDatabase(_) => 2
         case Create(d, replace) => if d.Dictionary? && replace then 0 else 2
         case _ => 0;
    i := match op
         case Drop(ViewKind, _) => 8
         case Drop(DictionaryKind, _) => 9
         case Drop(_, _) => 7
         case CreateDatabase(_) => 3
         case Create(d, replace) => (if d.Table? then 0 else if d.View? then 1 else if d.MaterializedView? then 2 else if replace then 5 else 4)
         case _ => 6;
  }

  lemma Unfold(op: P.Op, rest: Rest, cluster: string)
    ensures Render(op, rest) == Verb(op) + (GuardOf(op) + Name(op)) + Tail(op, rest)
    ensures Targeted(op, rest, cluster)
      == Verb(op) + (GuardOf(op) + Name(op)) + (" ON CLUSTER '" + cluster + "'") + Tail(op, rest)
  {
    hide Verb, GuardOf, Name, Tail;
  }
}
