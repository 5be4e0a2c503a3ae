/** The draft session: members join and leave roles, and an index of programs, edited in
    place, lists for each program terms the keys of the members whose role asks for it. */
module Drafts {
  import opened Basics

  datatype Cell = Text(text: string) | Num(num: int) | Flag(flag: bool) | Null

  /** A program entry: method, actions, paths, threshold, and then the members' keys. */
  type Entry = seq<Cell>

  const TERMS := 4

  datatype Role = Role(id: string, programs: seq<Entry>, seats: int)

  datatype Member = Member(pub: string, pid: string)

  datatype Session = Session(members: seq<Member>, roles: seq<Role>, programs: seq<Entry>)

  function Key(pub: string): Cell { Text(pub) }

  /* ---------- lookups ---------- */

  function At(e: Entry, i: nat): Option<Cell> {
    if i < |e| then Some(e[i]) else None
  }

  predicate SameTerms(e: Entry, t: Entry) {
    forall i | 0 <= i < TERMS :: At(e, i) == At(t, i)
  }

  /** `get_program_idx`; the length of the list stands for null. */
  function ProgramIdx(programs: seq<Entry>, terms: Entry): (i: nat)
    ensures i <= |programs|
    ensures i < |programs| ==> SameTerms(programs[i], terms)
    ensures forall j | 0 <= j < i :: !SameTerms(programs[j], terms)
  {
    if programs == [] || SameTerms(programs[0], terms) then 0 else 1 + ProgramIdx(programs[1..], terms)
  }

  /** `indexOf` on one entry; its length stands for -1. */
  function CellIdx(e: Entry, c: Cell): (i: nat)
    ensures i <= |e| && c !in e[..i]
    ensures i < |e| ==> e[i] == c
  {
    if e == [] || e[0] == c then 0 else 1 + CellIdx(e[1..], c)
  }

  function FindRole(roles: seq<Role>, pid: string): (r: Option<Role>)
    ensures r.Some? ==> r.value in roles && r.value.id == pid
  {
    if roles == [] then None else if roles[0].id == pid then Some(roles[0]) else FindRole(roles[1..], pid)
  }

  /** The templates a role id asks for. */
  function Asks(roles: seq<Role>, pid: string): seq<Entry> {
    var role := FindRole(roles, pid);
    if role.Some? then role.value.programs else []
  }

  function SlotsTaken(members: seq<Member>, pid: string): nat {
    if members == [] then 0 else (if members[0].pid == pid then 1 else 0) + SlotsTaken(members[1..], pid)
  }

  predicate HasMember(members: seq<Member>, pub: string) {
    exists m | m in members :: m.pub == pub
  }

  /* ---------- the edits ---------- */

  function AddProgram(programs: seq<Entry>, terms: Entry, pub: string): seq<Entry> {
    var i := ProgramIdx(programs, terms);
    if i == |programs| then programs + [terms + [Key(pub)]] else programs[i := programs[i] + [Key(pub)]]
  }

  function AddPrograms(programs: seq<Entry>, list: seq<Entry>, pub: string): seq<Entry> {
    if list == [] then programs
    else AddProgram(AddPrograms(programs, list[..|list| - 1], pub), list[|list| - 1], pub)
  }

  /** An entry this key alone keeps in the table. */
  predicate Sole(e: Entry, pub: string) {
    |e| == TERMS + 1 && Key(pub) in e
  }

  function Kept(programs: seq<Entry>, pub: string): seq<Entry> {
    if programs == [] then []
    else (if Sole(programs[0], pub) then [] else [programs[0]]) + Kept(programs[1..], pub)
  }

  function Splice(e: Entry, c: Cell): Entry {
    var i := CellIdx(e, c);
    if i < |e| then e[..i] + e[i + 1..] else e
  }

  function SpliceAll(programs: seq<Entry>, pub: string): seq<Entry> {
    if programs == [] then []
    else SpliceAll(programs[..|programs| - 1], pub) + [Splice(programs[|programs| - 1], Key(pub))]
  }

  function RemPrograms(programs: seq<Entry>, pub: string): seq<Entry> {
    SpliceAll(Kept(programs, pub), pub)
  }

  function Others(members: seq<Member>, pub: string): seq<Member> {
    if members == [] then []
    else (if members[0].pub == pub then [] else [members[0]]) + Others(members[1..], pub)
  }

  function Join(s: Session, pub: string, pid: string): Call<Session> {
    var role := FindRole(s.roles, pid);
    if HasMember(s.members, pub) || role.None? || SlotsTaken(s.members, pid) >= role.value.seats then Throws
    else Returns(Session(s.members + [Member(pub, pid)], s.roles, AddPrograms(s.programs, role.value.programs, pub)))
  }

  function Leave(s: Session, pub: string): Session {
    Session(Others(s.members, pub), s.roles, RemPrograms(s.programs, pub))
  }

  /** A draft session whose proposal is edited in place. */
  class DraftSession {
    var members: seq<Member>
    const roles: seq<Role>
    var programs: seq<Entry>

    ghost function Model(): Session
      reads this
    {
      Session(members, roles, programs)
    }

    constructor (roles: seq<Role>, programs: seq<Entry>)
      ensures Model() == Session([], roles, programs)
    {
      this.members, this.roles, this.programs := [], roles, programs;
    }

    /** The program part of `add_member_data`. */
    method AddMemberData(pub: string, policy: Role)
      modifies `programs
      ensures programs == AddPrograms(old(programs), policy.programs, pub)
    {
      for k := 0 to |policy.programs|
        invariant programs == AddPrograms(old(programs), policy.programs[..k], pub)
      {
        assert policy.programs[..k + 1][..k] == policy.programs[..k];
        var terms := policy.programs[k];
        var idx := ProgramIdx(programs, terms);
        if idx == |programs| {
          programs := programs + [terms + [Key(pub)]];
        } else {
          programs := programs[idx := programs[idx] + [Key(pub)]];
        }
      }
      assert policy.programs[..|policy.programs|] == policy.programs;
    }

    /** The program part of `rem_member_data`. */
    method RemMemberData(pub: string)
      modifies `programs
      ensures programs == RemPrograms(old(programs), pub)
    {
      var kept := Kept(programs, pub);
      programs := kept;
      for k := 0 to |kept|
        invariant |programs| == |kept|
        invariant programs[..k] == SpliceAll(kept[..k], pub) && programs[k..] == kept[k..]
      {
        assert programs[k] == programs[k..][0] == kept[k];
        assert kept[..k + 1][..k] == kept[..k];
        var idx := CellIdx(programs[k], Key(pub));
        if idx < |programs[k]| {
          programs := programs[k := programs[k][..idx] + programs[k][idx + 1..]];
        }
        assert programs[k + 1..] == kept[k..][1..];
        assert programs[..k + 1] == programs[..k] + [programs[k]];
      }
      assert kept[..|kept|] == kept && programs[..|kept|] == programs;
    }

    method JoinSession(pub: string, pid: string) returns (threw: bool)
      modifies this
      ensures var want := old(Join(Model(), pub, pid));
              threw == want.Throws? && Model() == if want.Throws? then old(Model()) else want.value
    {
      if HasMember(members, pub) {
        return true;
      }
      var policy := FindRole(roles, pid);
      if policy.None? || SlotsTaken(members, pid) >= policy.value.seats {
        return true;
      }
      members := members + [Member(pub, pid)];
      AddMemberData(pub, policy.value);
      return false;
    }

    method LeaveSession(pub: string)
      modifies this
      ensures Model() == old(Leave(Model(), pub))
    {
      members := Others(members, pub);
      RemMemberData(pub);
    }
  }

  /* ---------- runs ---------- */

  datatype Op = Joins(pub: string, pid: string) | Leaves(pub: string)

  function Step(s: Session, op: Op): Session {
    match op
    case Joins(pub, pid) => if Join(s, pub, pid).Returns? then Join(s, pub, pid).value else s
    case Leaves(pub) => Leave(s, pub)
  }

  function Run(s: Session, ops: seq<Op>): Session
    decreases |ops|
  {
    if ops == [] then s else Run(Step(s, ops[0]), ops[1..])
  }

  /* ---------- what the table should say ---------- */

  /** The keys the table owes to some terms: the members whose role asks for them, in order. */
  function KeysFor(members: seq<Member>, roles: seq<Role>, terms: Entry): seq<Cell> {
    if members == [] then []
    else (if terms in Asks(roles, members[0].pid) then [Key(members[0].pub)] else [])
         + KeysFor(members[1..], roles, terms)
  }

  /** The same, with one key added for the terms in `done`. */
  function KeysWith(s: Session, done: seq<Entry>, pub: string, terms: Entry): seq<Cell> {
    KeysFor(s.members, s.roles, terms) + if terms in done then [Key(pub)] else []
  }

  predicate OneEach(programs: seq<Entry>) {
    && (forall e | e in programs :: |e| > TERMS)
    && forall i, j | 0 <= i < j < |programs| :: programs[i][..TERMS] != programs[j][..TERMS]
  }

  ghost predicate Holds(programs: seq<Entry>, s: Session, done: seq<Entry>, pub: string) {
    && OneEach(programs)
    && (forall e | e in programs :: e[TERMS..] == KeysWith(s, done, pub, e[..TERMS]))
    && (forall t: Entry | |t| == TERMS && KeysWith(s, done, pub, t) != [] ::
          exists e :: e in programs && e[..TERMS] == t)
  }

  /** The table is right: one entry for exactly the terms that some member's role asks for,
      holding the keys of exactly those members, once each. */
  ghost predicate TableRight(s: Session) {
    && OneEach(s.programs)
    && (forall e | e in s.programs :: e[TERMS..] == KeysFor(s.members, s.roles, e[..TERMS]))
    && (forall t: Entry | |t| == TERMS && KeysFor(s.members, s.roles, t) != [] ::
          exists e :: e in s.programs && e[..TERMS] == t)
  }

  predicate OnceEach(members: seq<Member>) {
    forall i, j | 0 <= i < j < |members| :: members[i].pub != members[j].pub
  }

  predicate Seated(s: Session) {
    forall m | m in s.members ::
      && FindRole(s.roles, m.pid).Some?
      && SlotsTaken(s.members, m.pid) <= FindRole(s.roles, m.pid).value.seats
  }

  ghost predicate Agrees(s: Session) {
    TableRight(s) && OnceEach(s.members) && Seated(s)
  }

  /** Templates with no keys of their own, and no terms twice. */
  predicate Plain(templates: seq<Entry>) {
    (forall t | t in templates :: |t| == TERMS) && Distinct(templates)
  }

  /** A role somebody can join. */
  predicate Offered(roles: seq<Role>, r: Role) {
    FindRole(roles, r.id) == Some(r) && r.seats > 0
  }

  predicate PlainRoles(roles: seq<Role>) {
    forall r | r in roles && Offered(roles, r) :: Plain(r.programs)
  }

  /** A key that is none of the words in the templates. */
  predicate Outside(roles: seq<Role>, pub: string) {
    forall r, t | r in roles && t in r.programs :: Key(pub) !in t
  }

  predicate AllOutside(roles: seq<Role>, ops: seq<Op>) {
    forall op | op in ops :: Outside(roles, op.pub)
  }

  /* ---------- joining ---------- */

  lemma {:induction false} KeysForAppend(members: seq<Member>, m: Member, roles: seq<Role>, terms: Entry)
    ensures KeysFor(members + [m], roles, terms)
         == KeysFor(members, roles, terms) + if terms in Asks(roles, m.pid) then [Key(m.pub)] else []
  {
    var last := if terms in Asks(roles, m.pid) then [Key(m.pub)] else [];
    if members == [] {
      assert [m][1..] == [];
      assert KeysFor([m], roles, terms) == last + [];
    } else {
      var first := if terms in Asks(roles, members[0].pid) then [Key(members[0].pub)] else [];
      assert (members + [m])[1..] == members[1..] + [m];
      KeysForAppend(members[1..], m, roles, terms);
      assert first + (KeysFor(members[1..], roles, terms) + last) == first + KeysFor(members[1..], roles, terms) + last;
    }
  }

  lemma {:induction false} KeysAreMembers(members: seq<Member>, roles: seq<Role>, terms: Entry, pub: string)
    requires !HasMember(members, pub)
    ensures Key(pub) !in KeysFor(members, roles, terms)
  {
    if members != [] {
      assert members[0] in members;
      forall m | m in members[1..] ensures m.pub != pub {
        assert m in members;
      }
      KeysAreMembers(members[1..], roles, terms, pub);
    }
  }

  lemma {:induction false} SlotsAppend(members: seq<Member>, m: Member, pid: string)
    ensures SlotsTaken(members + [m], pid) == SlotsTaken(members, pid) + if m.pid == pid then 1 else 0
  {
    if members == [] {
      assert [m][1..] == [];
    } else {
      assert (members + [m])[1..] == members[1..] + [m];
      SlotsAppend(members[1..], m, pid);
    }
  }

  lemma SameTermsIsPrefix(e: Entry, t: Entry)
    requires |e| > TERMS && |t| == TERMS
    ensures SameTerms(e, t) <==> e[..TERMS] == t
  {
    if SameTerms(e, t) {
      forall i | 0 <= i < TERMS ensures e[..TERMS][i] == t[i] {
        assert At(e, i) == At(t, i);
      }
    }
  }

  /** Entry by entry: only the entry for these terms changes. */
  lemma AddKeepsOthers(programs: seq<Entry>, t: Entry, pub: string)
    requires OneEach(programs) && |t| == TERMS
    ensures OneEach(AddProgram(programs, t, pub))
    ensures var after := AddProgram(programs, t, pub);
            && |programs| <= |after|
            && (forall j | 0 <= j < |programs| ::
                  && after[j][..TERMS] == programs[j][..TERMS]
                  && after[j][TERMS..] == programs[j][TERMS..] + if programs[j][..TERMS] == t then [Key(pub)] else [])
            && (forall j | |programs| <= j < |after| ::
                  after[j] == t + [Key(pub)] && forall e | e in programs :: e[..TERMS] != t)
            && exists j :: 0 <= j < |after| && after[j][..TERMS] == t
  {
    var after := AddProgram(programs, t, pub);
    var i := ProgramIdx(programs, t);
    forall e | e in programs ensures SameTerms(e, t) <==> e[..TERMS] == t {
      SameTermsIsPrefix(e, t);
    }
    assert after[i][..TERMS] == t;
    if i < |programs| {
      assert after[i][TERMS..] == programs[i][TERMS..] + [Key(pub)];
    }
  }

  lemma KeysGrow(s: Session, done: seq<Entry>, t: Entry, pub: string, x: Entry)
    requires t !in done
    ensures KeysWith(s, done + [t], pub, x) == KeysWith(s, done, pub, x) + if x == t then [Key(pub)] else []
  {
  }

  lemma AddKeysOld(programs: seq<Entry>, s: Session, done: seq<Entry>, t: Entry, pub: string, j: nat)
    requires OneEach(programs) && |t| == TERMS && t !in done && j < |programs|
    requires programs[j][TERMS..] == KeysWith(s, done, pub, programs[j][..TERMS])
    ensures j < |AddProgram(programs, t, pub)| && |AddProgram(programs, t, pub)[j]| > TERMS
    ensures var e := AddProgram(programs, t, pub)[j];
            e[TERMS..] == KeysWith(s, done + [t], pub, e[..TERMS])
  {
    hide KeysWith;
    AddKeepsOthers(programs, t, pub);
    assert AddProgram(programs, t, pub)[j] in AddProgram(programs, t, pub);
    KeysGrow(s, done, t, pub, programs[j][..TERMS]);
  }

  lemma AddKeysNew(s: Session, done: seq<Entry>, t: Entry, pub: string)
    requires |t| == TERMS && t !in done && KeysWith(s, done, pub, t) == []
    ensures var e := t + [Key(pub)];
            e[TERMS..] == KeysWith(s, done + [t], pub, e[..TERMS])
  {
    hide KeysWith;
    var e := t + [Key(pub)];
    assert e[..TERMS] == t && e[TERMS..] == [Key(pub)];
    KeysGrow(s, done, t, pub, t);
  }

  lemma AddCovers(programs: seq<Entry>, t: Entry, pub: string, x: Entry)
    requires OneEach(programs) && |t| == TERMS
    requires x == t || exists e :: e in programs && e[..TERMS] == x
    ensures exists e :: e in AddProgram(programs, t, pub) && |e| > TERMS && e[..TERMS] == x
  {
    AddKeepsOthers(programs, t, pub);
    var after := AddProgram(programs, t, pub);
    if x == t {
      var j :| 0 <= j < |after| && after[j][..TERMS] == t;
      assert after[j] in after;
    } else {
      var e :| e in programs && e[..TERMS] == x;
      var j :| 0 <= j < |programs| && programs[j] == e;
      assert after[j] in after && after[j][..TERMS] == x;
    }
  }

  /** Adding a key to one entry, or one entry to the table, is right for terms not yet done. */
  lemma AddHolds(programs: seq<Entry>, s: Session, done: seq<Entry>, t: Entry, pub: string)
    requires Holds(programs, s, done, pub) && |t| == TERMS && t !in done
    ensures Holds(AddProgram(programs, t, pub), s, done + [t], pub)
  {
    AddKeepsOthers(programs, t, pub);
    var after := AddProgram(programs, t, pub);
    forall e | e in after ensures e[TERMS..] == KeysWith(s, done + [t], pub, e[..TERMS]) {
      var j :| 0 <= j < |after| && after[j] == e;
      if j < |programs| {
        assert programs[j] in programs;
        AddKeysOld(programs, s, done, t, pub, j);
      } else {
        AddKeysNew(s, done, t, pub);
      }
    }
    forall x: Entry | |x| == TERMS && KeysWith(s, done + [t], pub, x) != []
      ensures exists e :: e in after && e[..TERMS] == x
    {
      KeysGrow(s, done, t, pub, x);
      AddCovers(programs, t, pub, x);
    }
  }

  lemma PlainFront(list: seq<Entry>)
    requires Plain(list) && list != []
    ensures var (front, t) := (list[..|list| - 1], list[|list| - 1]);
            Plain(front) && |t| == TERMS && t !in front && list == front + [t]
  {
  }

  lemma NoneDone(s: Session, pub: string)
    requires TableRight(s)
    ensures Holds(s.programs, s, [], pub)
  {
    forall t ensures KeysWith(s, [], pub, t) == KeysFor(s.members, s.roles, t) {
    }
  }

  lemma {:induction false} AddAllHolds(s: Session, list: seq<Entry>, pub: string)
    requires TableRight(s) && Plain(list)
    ensures Holds(AddPrograms(s.programs, list, pub), s, list, pub)
  {
    if list == [] {
      NoneDone(s, pub);
    } else {
      var (front, t) := (list[..|list| - 1], list[|list| - 1]);
      PlainFront(list);
      AddAllHolds(s, front, pub);
      AddHolds(AddPrograms(s.programs, front, pub), s, front, t, pub);
    }
  }

  lemma JoinKeeps(s: Session, pub: string, pid: string)
    requires Agrees(s) && PlainRoles(s.roles) && Join(s, pub, pid).Returns?
    ensures Agrees(Join(s, pub, pid).value)
  {
    hide AddPrograms, KeysFor, SlotsTaken;
    var after := Join(s, pub, pid).value;
    var list := FindRole(s.roles, pid).value.programs;
    AddAllHolds(s, list, pub);
    forall t ensures KeysFor(after.members, s.roles, t) == KeysWith(s, list, pub, t) {
      KeysForAppend(s.members, Member(pub, pid), s.roles, t);
    }
    forall m | m in after.members ensures FindRole(s.roles, m.pid).Some?
      && SlotsTaken(after.members, m.pid) <= FindRole(s.roles, m.pid).value.seats
    {
      SlotsAppend(s.members, Member(pub, pid), m.pid);
    }
    forall m | m in s.members ensures m.pub != pub {
    }
  }

  /* ---------- leaving ---------- */

  lemma {:induction false} SpliceAllHead(programs: seq<Entry>, pub: string)
    requires programs != []
    ensures SpliceAll(programs, pub) == [Splice(programs[0], Key(pub))] + SpliceAll(programs[1..], pub)
  {
    var n := |programs| - 1;
    if n > 0 {
      SpliceAllHead(programs[..n], pub);
      assert programs[..n][1..] == programs[1..][..n - 1];
    }
  }

  lemma RemNone(pub: string)
    ensures RemPrograms([], pub) == []
  {
  }

  /** Removing a key, one entry at a time. */
  lemma RemStep(programs: seq<Entry>, pub: string)
    requires programs != []
    ensures RemPrograms(programs, pub)
         == (if Sole(programs[0], pub) then [] else [Splice(programs[0], Key(pub))]) + RemPrograms(programs[1..], pub)
  {
    var kept := Kept(programs, pub);
    if Sole(programs[0], pub) {
      assert kept == Kept(programs[1..], pub);
    } else {
      SpliceAllHead(kept, pub);
      assert kept[1..] == Kept(programs[1..], pub);
    }
  }

  /** What is left of the table: every entry that another key keeps, without this key. */
  lemma {:induction false} RemMembers(programs: seq<Entry>, pub: string, e: Entry)
    ensures e in RemPrograms(programs, pub)
       <==> exists x :: x in programs && !Sole(x, pub) && e == Splice(x, Key(pub))
  {
    if programs != [] {
      RemStep(programs, pub);
      RemMembers(programs[1..], pub, e);
      assert forall x :: x in programs <==> x == programs[0] || x in programs[1..];
    }
  }

  /** What comes before the first occurrence is not touched. */
  lemma SpliceRight(a: Entry, b: Entry, c: Cell)
    requires c !in a
    ensures Splice(a + b, c) == a + Splice(b, c)
  {
    hide CellIdx;
    var i := CellIdx(b, c);
    if i < |b| {
      FirstIdx(a + b, c, |a| + i);
      assert (a + b)[..|a| + i] == a + b[..i] && (a + b)[|a| + i + 1..] == b[i + 1..];
      assert (a + b[..i]) + b[i + 1..] == a + (b[..i] + b[i + 1..]);
    } else {
      SpliceAbsent(a + b, c);
    }
  }

  lemma SpliceKeys(e: Entry, c: Cell)
    requires |e| > TERMS && c !in e[..TERMS]
    ensures |Splice(e, c)| >= TERMS && Splice(e, c)[..TERMS] == e[..TERMS]
    ensures Splice(e, c)[TERMS..] == Splice(e[TERMS..], c)
    ensures |Splice(e, c)| == if c in e then |e| - 1 else |e|
  {
    assert e[..TERMS] + e[TERMS..] == e;
    SpliceRight(e[..TERMS], e[TERMS..], c);
  }

  lemma FirstIdx(e: Entry, c: Cell, i: nat)
    requires i < |e| && e[i] == c && c !in e[..i]
    ensures CellIdx(e, c) == i
  {
  }

  lemma {:induction false} KeysAsked(members: seq<Member>, roles: seq<Role>, terms: Entry)
    requires KeysFor(members, roles, terms) != []
    ensures exists m :: m in members && terms in Asks(roles, m.pid)
  {
    if terms in Asks(roles, members[0].pid) {
      assert members[0] in members;
    } else {
      KeysAsked(members[1..], roles, terms);
      var m :| m in members[1..] && terms in Asks(roles, m.pid);
      assert m in members;
    }
  }

  /** A key outside the templates is in no entry's terms. */
  lemma HeadOutside(s: Session, pub: string, e: Entry)
    requires TableRight(s) && Outside(s.roles, pub) && e in s.programs
    ensures Key(pub) !in e[..TERMS]
    ensures Sole(e, pub) <==> e[TERMS..] == [Key(pub)]
  {
    assert e[TERMS..] != [];
    KeysAsked(s.members, s.roles, e[..TERMS]);
    assert e == e[..TERMS] + e[TERMS..];
  }

  lemma {:induction false} OthersOnce(members: seq<Member>, pub: string)
    requires OnceEach(members)
    ensures OnceEach(Others(members, pub))
    ensures forall m :: m in Others(members, pub) <==> m in members && m.pub != pub
  {
    if members != [] {
      assert forall i, j | 0 <= i < j < |members[1..]| ::
               members[1..][i] == members[i + 1] && members[1..][j] == members[j + 1];
      OthersOnce(members[1..], pub);
      forall m | m in members[1..] ensures m.pub != members[0].pub {
        var j :| 0 <= j < |members[1..]| && members[1..][j] == m;
        assert members[j + 1] == m;
      }
    }
  }

  lemma {:induction false} OthersSlots(members: seq<Member>, pub: string, pid: string)
    ensures SlotsTaken(Others(members, pub), pid) <= SlotsTaken(members, pid)
  {
    if members != [] {
      var rest := Others(members[1..], pub);
      OthersSlots(members[1..], pub, pid);
      if members[0].pub == pub {
        assert Others(members, pub) == rest;
      } else {
        assert ([members[0]] + rest)[1..] == rest;
      }
    }
  }

  lemma {:induction false} OthersAll(members: seq<Member>, pub: string)
    requires !HasMember(members, pub)
    ensures Others(members, pub) == members
  {
    if members != [] {
      assert members[0] in members;
      forall m | m in members[1..] ensures m.pub != pub {
        assert m in members;
      }
      OthersAll(members[1..], pub);
    }
  }

  lemma KeysOthersFound(members: seq<Member>, roles: seq<Role>, terms: Entry, pub: string)
    requires members != [] && members[0].pub == pub && !HasMember(members[1..], pub)
    ensures KeysFor(Others(members, pub), roles, terms) == Splice(KeysFor(members, roles, terms), Key(pub))
  {
    var keys := KeysFor(members[1..], roles, terms);
    OthersAll(members[1..], pub);
    assert Others(members, pub) == members[1..];
    KeysAreMembers(members[1..], roles, terms, pub);
    if terms in Asks(roles, members[0].pid) {
      SpliceFirst(Key(pub), keys);
    } else {
      assert KeysFor(members, roles, terms) == keys;
      SpliceAbsent(keys, Key(pub));
    }
  }

  lemma KeysOthersNext(members: seq<Member>, roles: seq<Role>, terms: Entry, pub: string)
    requires members != [] && members[0].pub != pub
    requires KeysFor(Others(members[1..], pub), roles, terms) == Splice(KeysFor(members[1..], roles, terms), Key(pub))
    ensures KeysFor(Others(members, pub), roles, terms) == Splice(KeysFor(members, roles, terms), Key(pub))
  {
    var (m, rest, keys) := (members[0], Others(members[1..], pub), KeysFor(members[1..], roles, terms));
    assert ([m] + rest)[1..] == rest;
    if terms in Asks(roles, m.pid) {
      SpliceRight([Key(m.pub)], keys, Key(pub));
    } else {
      assert KeysFor(members, roles, terms) == keys;
    }
  }

  /** The keys owed after somebody left: theirs is taken out. */
  lemma {:induction false} KeysOthers(members: seq<Member>, roles: seq<Role>, terms: Entry, pub: string)
    requires OnceEach(members)
    ensures KeysFor(Others(members, pub), roles, terms) == Splice(KeysFor(members, roles, terms), Key(pub))
  {
    if members != [] {
      if members[0].pub == pub {
        KeysOthersFound(members, roles, terms, pub);
      } else {
        KeysOthers(members[1..], roles, terms, pub);
        KeysOthersNext(members, roles, terms, pub);
      }
    }
  }

  lemma SpliceAbsent(e: Entry, c: Cell)
    requires c !in e
    ensures Splice(e, c) == e
  {
    assert CellIdx(e, c) == |e|;
  }

  lemma SpliceFirst(c: Cell, e: Entry)
    ensures Splice([c] + e, c) == e
  {
    FirstIdx([c] + e, c, 0);
  }

  lemma {:induction false} RemOneEach(programs: seq<Entry>, pub: string)
    requires OneEach(programs) && forall e | e in programs :: Key(pub) !in e[..TERMS]
    ensures OneEach(RemPrograms(programs, pub))
  {
    hide Kept, SpliceAll, RemPrograms, Splice;
    RemNone(pub);
    if programs != [] {
      var (e, rest) := (programs[0], programs[1..]);
      assert forall i | 0 <= i < |rest| :: rest[i] == programs[i + 1];
      RemStep(programs, pub);
      RemOneEach(rest, pub);
      SpliceKeys(e, Key(pub));
      var left := RemPrograms(rest, pub);
      forall i | 0 <= i < |left| ensures left[i][..TERMS] != e[..TERMS] {
        RemMembers(rest, pub, left[i]);
        var x :| x in rest && left[i] == Splice(x, Key(pub));
        var k :| 0 <= k < |rest| && rest[k] == x;
        assert programs[k + 1] == x;
        SpliceKeys(x, Key(pub));
      }
    }
  }

  lemma LeaveKeys(s: Session, pub: string, x: Entry)
    requires TableRight(s) && OnceEach(s.members) && Outside(s.roles, pub) && x in s.programs
    ensures var e := Splice(x, Key(pub));
            && |e| >= TERMS && e[..TERMS] == x[..TERMS]
            && e[TERMS..] == KeysFor(Others(s.members, pub), s.roles, x[..TERMS])
            && (Sole(x, pub) <==> KeysFor(Others(s.members, pub), s.roles, x[..TERMS]) == [])
  {
    HeadOutside(s, pub, x);
    SpliceKeys(x, Key(pub));
    KeysOthers(s.members, s.roles, x[..TERMS], pub);
    if Sole(x, pub) {
      SpliceFirst(Key(pub), []);
    }
  }

  lemma LeaveTable(s: Session, pub: string)
    requires TableRight(s) && OnceEach(s.members) && Outside(s.roles, pub)
    ensures TableRight(Leave(s, pub))
  {
    var after := Leave(s, pub);
    forall e | e in s.programs ensures Key(pub) !in e[..TERMS] {
      HeadOutside(s, pub, e);
    }
    RemOneEach(s.programs, pub);
    forall e | e in after.programs ensures e[TERMS..] == KeysFor(after.members, s.roles, e[..TERMS]) {
      RemMembers(s.programs, pub, e);
      var x :| x in s.programs && e == Splice(x, Key(pub));
      LeaveKeys(s, pub, x);
    }
    forall t: Entry | |t| == TERMS && KeysFor(after.members, s.roles, t) != []
      ensures exists e :: e in after.programs && e[..TERMS] == t
    {
      KeysOthers(s.members, s.roles, t, pub);
      var x :| x in s.programs && x[..TERMS] == t;
      LeaveKeys(s, pub, x);
      RemMembers(s.programs, pub, Splice(x, Key(pub)));
    }
  }

  lemma LeaveKeeps(s: Session, pub: string)
    requires Agrees(s) && Outside(s.roles, pub)
    ensures Agrees(Leave(s, pub))
  {
    LeaveTable(s, pub);
    OthersOnce(s.members, pub);
    forall m | m in Others(s.members, pub)
      ensures FindRole(s.roles, m.pid).Some?
           && SlotsTaken(Others(s.members, pub), m.pid) <= FindRole(s.roles, m.pid).value.seats
    {
      OthersSlots(s.members, pub, m.pid);
    }
  }

  lemma {:induction false} RunKeeps(s: Session, ops: seq<Op>)
    requires Agrees(s) && PlainRoles(s.roles) && AllOutside(s.roles, ops)
    ensures Agrees(Run(s, ops))
    decreases |ops|
  {
    if ops != [] {
      var op := ops[0];
      assert op in ops;
      match op {
        case Joins(pub, pid) =>
          if Join(s, pub, pid).Returns? {
            JoinKeeps(s, pub, pid);
          }
        case Leaves(pub) => LeaveKeeps(s, pub);
      }
      RunKeeps(Step(s, op), ops[1..]);
    }
  }

  /* ---------- exactly when ---------- */

  predicate AllFive(programs: seq<Entry>) {
    forall e | e in programs :: |e| == TERMS + 1
  }

  predicate AllHave(programs: seq<Entry>, c: Cell) {
    forall e | e in programs :: c in e
  }

  /** An entry no longer than its terms holds the new key among them, so no template finds it. */
  lemma ShortUnmatched(e: Entry, t: Entry, c: Cell)
    requires c in e && |e| <= TERMS && c !in t
    ensures !SameTerms(e, t)
  {
    var i :| 0 <= i < |e| && e[i] == c;
    assert At(e, i) == Some(c) && At(t, i) != Some(c);
  }

  lemma AddOnce(programs: seq<Entry>, t: Entry, pub: string)
    requires AllHave(programs, Key(pub)) && Key(pub) !in t
    ensures AllHave(AddProgram(programs, t, pub), Key(pub))
    ensures AllFive(AddProgram(programs, t, pub)) ==>
              AllFive(programs) && |t| == TERMS && (forall e | e in programs :: !SameTerms(e, t))
              && AddProgram(programs, t, pub) == programs + [t + [Key(pub)]]
  {
    var (after, i) := (AddProgram(programs, t, pub), ProgramIdx(programs, t));
    if i < |programs| {
      assert programs[i] in programs && after[i] in after;
      if |programs[i]| <= TERMS {
        ShortUnmatched(programs[i], t, Key(pub));
      }
      assert !AllFive(after);
      forall e | e in after ensures Key(pub) in e {
        var j :| 0 <= j < |after| && after[j] == e;
        assert programs[j] in programs;
      }
    } else {
      forall e | e in programs ensures e in after && !SameTerms(e, t) {
        var j :| 0 <= j < |programs| && programs[j] == e;
        assert after[j] == e;
      }
      assert after[i] in after;
    }
  }

  /** If one member's join leaves every entry with exactly one key, the templates were plain. */
  lemma {:induction false} OneKeyEach(list: seq<Entry>, pub: string)
    requires forall t | t in list :: Key(pub) !in t
    ensures AllHave(AddPrograms([], list, pub), Key(pub))
    ensures AllFive(AddPrograms([], list, pub)) ==>
              Plain(list) && forall t | t in list :: t + [Key(pub)] in AddPrograms([], list, pub)
  {
    if list != [] {
      var (front, t) := (list[..|list| - 1], list[|list| - 1]);
      assert list == front + [t];
      OneKeyEach(front, pub);
      var before := AddPrograms([], front, pub);
      if |t| == TERMS {
        assert SameTerms(t + [Key(pub)], t);
      }
      AddOnce(before, t, pub);
    }
  }

  lemma FirstJoin(roles: seq<Role>, r: Role, pub: string)
    requires r in roles && Offered(roles, r) && Outside(roles, pub)
    requires Agrees(Run(Session([], roles, []), [Joins(pub, r.id)]))
    ensures Plain(r.programs)
  {
    var s := Session([], roles, []);
    var after := Join(s, pub, r.id).value;
    assert Run(s, [Joins(pub, r.id)]) == Run(after, []);
    forall e | e in after.programs ensures |e| == TERMS + 1 {
      assert after.members == [Member(pub, r.id)];
      assert after.members[1..] == [];
      assert e[TERMS..] == KeysFor(after.members, roles, e[..TERMS]);
    }
    OneKeyEach(r.programs, pub);
  }

  /** The draft's program table agrees with its members after every run of joins and leaves
      from an empty table, if and only if every role that can be joined has plain templates. */
  lemma TableAgreesExactly(roles: seq<Role>, pub: string)
    requires Outside(roles, pub)
    ensures (forall ops | AllOutside(roles, ops) :: Agrees(Run(Session([], roles, []), ops))) <==> PlainRoles(roles)
  {
    var s := Session([], roles, []);
    if PlainRoles(roles) {
      forall ops | AllOutside(roles, ops) ensures Agrees(Run(s, ops)) {
        RunKeeps(s, ops);
      }
    }
    if forall ops | AllOutside(roles, ops) :: Agrees(Run(s, ops)) {
      forall r | r in roles && Offered(roles, r) ensures Plain(r.programs) {
        assert AllOutside(roles, [Joins(pub, r.id)]);
        FirstJoin(roles, r, pub);
      }
    }
  }

  /* ---------- a leave undoes a join ---------- */

  lemma {:induction false} RemAppend(a: seq<Entry>, b: seq<Entry>, pub: string)
    ensures RemPrograms(a + b, pub) == RemPrograms(a, pub) + RemPrograms(b, pub)
  {
    hide Splice, Sole, CellIdx;
    if a == [] {
      assert a + b == b;
    } else {
      assert (a + b)[1..] == a[1..] + b;
      RemAppend(a[1..], b, pub);
      RemStep(a, pub);
      RemStep(a + b, pub);
    }
  }

  lemma {:induction false} RemAbsent(programs: seq<Entry>, pub: string)
    requires forall e | e in programs :: Key(pub) !in e
    ensures RemPrograms(programs, pub) == programs
  {
    if programs != [] {
      RemStep(programs, pub);
      SpliceAbsent(programs[0], Key(pub));
      RemAbsent(programs[1..], pub);
    }
  }

  lemma RemOne(e: Entry, pub: string)
    ensures RemPrograms([e], pub) == if Sole(e, pub) then [] else [Splice(e, Key(pub))]
  {
    RemStep([e], pub);
    assert [e][1..] == [];
  }

  lemma SpliceLast(e: Entry, c: Cell)
    requires c !in e
    ensures Splice(e + [c], c) == e
  {
    assert (e + [c])[..|e|] == e;
    FirstIdx(e + [c], c, |e|);
  }

  lemma RemMiddle(a: seq<Entry>, e: Entry, f: Entry, b: seq<Entry>, pub: string)
    requires RemPrograms([e], pub) == RemPrograms([f], pub)
    ensures RemPrograms(a + [e] + b, pub) == RemPrograms(a + [f] + b, pub)
  {
    hide RemPrograms;
    RemAppend(a + [e], b, pub);
    RemAppend(a, [e], pub);
    RemAppend(a + [f], b, pub);
    RemAppend(a, [f], pub);
  }

  lemma AddRemEntry(e: Entry, pub: string)
    requires |e| > TERMS && Key(pub) !in e
    ensures RemPrograms([e + [Key(pub)]], pub) == RemPrograms([e], pub)
  {
    hide SpliceAll, Kept, RemPrograms, Splice;
    RemOne(e, pub);
    RemOne(e + [Key(pub)], pub);
    SpliceAbsent(e, Key(pub));
    SpliceLast(e, Key(pub));
  }

  lemma Around(programs: seq<Entry>, i: nat, e: Entry)
    requires i < |programs|
    ensures programs == programs[..i] + [programs[i]] + programs[i + 1..]
    ensures programs[i := e] == programs[..i] + [e] + programs[i + 1..]
  {
  }

  lemma AddSplits(programs: seq<Entry>, t: Entry, pub: string)
    ensures var i := ProgramIdx(programs, t);
            if i == |programs| then AddProgram(programs, t, pub) == programs + [t + [Key(pub)]]
            else
              && programs == programs[..i] + [programs[i]] + programs[i + 1..]
              && AddProgram(programs, t, pub) == programs[..i] + [programs[i] + [Key(pub)]] + programs[i + 1..]
  {
    var i := ProgramIdx(programs, t);
    if i < |programs| {
      Around(programs, i, programs[i] + [Key(pub)]);
    }
  }

  /** Removing a key right after adding it for some terms is the same as removing it before,
      when no entry for those terms had it. */
  lemma AddRem(programs: seq<Entry>, t: Entry, pub: string)
    requires OneEach(programs) && |t| == TERMS && Key(pub) !in t
    requires forall e | e in programs && e[..TERMS] == t :: Key(pub) !in e
    ensures RemPrograms(AddProgram(programs, t, pub), pub) == RemPrograms(programs, pub)
  {
    hide SpliceAll, Kept, RemPrograms, Splice, AddProgram;
    var i := ProgramIdx(programs, t);
    AddSplits(programs, t, pub);
    if i == |programs| {
      RemAppend(programs, [t + [Key(pub)]], pub);
      RemOne(t + [Key(pub)], pub);
    } else {
      var e := programs[i];
      assert e in programs;
      SameTermsIsPrefix(e, t);
      AddRemEntry(e, pub);
      RemMiddle(programs[..i], e, e + [Key(pub)], programs[i + 1..], pub);
    }
  }

  lemma {:induction false} AddAllRem(s: Session, list: seq<Entry>, pub: string)
    requires TableRight(s) && Plain(list) && !HasMember(s.members, pub)
    requires forall t | t in list :: Key(pub) !in t
    ensures RemPrograms(AddPrograms(s.programs, list, pub), pub) == RemPrograms(s.programs, pub)
  {
    hide AddProgram, RemPrograms, KeysFor;
    if list != [] {
      var (front, t) := (list[..|list| - 1], list[|list| - 1]);
      PlainFront(list);
      AddAllRem(s, front, pub);
      AddAllHolds(s, front, pub);
      var before := AddPrograms(s.programs, front, pub);
      forall e | e in before && e[..TERMS] == t ensures Key(pub) !in e {
        KeysAreMembers(s.members, s.roles, t, pub);
        assert e == e[..TERMS] + e[TERMS..];
      }
      AddRem(before, t, pub);
    }
  }

  lemma {:induction false} OthersAppend(members: seq<Member>, pub: string, pid: string)
    requires !HasMember(members, pub)
    ensures Others(members + [Member(pub, pid)], pub) == members
  {
    if members == [] {
    } else {
      assert (members + [Member(pub, pid)])[1..] == members[1..] + [Member(pub, pid)];
      assert members[0] in members;
      forall m | m in members[1..] ensures m.pub != pub {
        assert m in members;
      }
      OthersAppend(members[1..], pub, pid);
    }
  }

  /** Leaving right after joining gives back the very session one joined: its members, its
      entries, and their order. */
  lemma LeaveUndoesJoin(s: Session, pub: string, pid: string)
    requires Agrees(s) && PlainRoles(s.roles) && Outside(s.roles, pub)
    requires Join(s, pub, pid).Returns?
    ensures Leave(Join(s, pub, pid).value, pub) == s
  {
    var role := FindRole(s.roles, pid).value;
    AddAllRem(s, role.programs, pub);
    OthersAppend(s.members, pub, pid);
    forall e | e in s.programs ensures Key(pub) !in e {
      HeadOutside(s, pub, e);
      KeysAreMembers(s.members, s.roles, e[..TERMS], pub);
      assert e == e[..TERMS] + e[TERMS..];
    }
    RemAbsent(s.programs, pub);
  }

  /** Joining a role that lists one template twice gives its entry the key twice. */
  lemma TwiceListed(t: Entry, pub: string)
    requires |t| == TERMS
    ensures AddPrograms([], [t, t], pub) == [t + [Key(pub), Key(pub)]]
  {
    var once := t + [Key(pub)];
    assert [t, t][..1] == [t] && [t][..0] == [];
    assert AddPrograms([], [t], pub) == [once];
    assert SameTerms(once, t);
    assert ProgramIdx([once], t) == 0 && once + [Key(pub)] == t + [Key(pub), Key(pub)];
    assert AddPrograms([], [t, t], pub) == AddProgram(AddPrograms([], [t, t][..1], pub), [t, t][1], pub);
  }

  /** Then a leave does not undo the join: the entry outlives its only member. */
  lemma KeyLeftBehind(t: Entry, pub: string, role: string)
    requires |t| == TERMS && Key(pub) !in t
    ensures var roles := [Role(role, [t, t], 1)];
            var s := Run(Session([], roles, []), [Joins(pub, role), Leaves(pub)]);
            s.members == [] && s.programs == [t + [Key(pub)]]
  {
    hide Kept, SpliceAll, AddPrograms;
    var s := Session([], [Role(role, [t, t], 1)], []);
    var twice := t + [Key(pub), Key(pub)];
    TwiceListed(t, pub);
    var joined := Join(s, pub, role).value;
    assert joined == Session([Member(pub, role)], s.roles, [twice]);
    RemOne(twice, pub);
    assert twice == t + [Key(pub), Key(pub)];
    SpliceRight(t, [Key(pub), Key(pub)], Key(pub));
    SpliceFirst(Key(pub), [Key(pub)]);
    assert [Key(pub)] + [Key(pub)] == [Key(pub), Key(pub)];
    assert Leave(joined, pub).programs == [t + [Key(pub)]];
    assert joined.members[1..] == [] && Others(joined.members, pub) == [];
    var ops := [Joins(pub, role), Leaves(pub)];
    assert ops[1..] == [Leaves(pub)] && ops[1..][1..] == [];
    assert Run(s, ops) == Run(joined, [Leaves(pub)]) == Run(Leave(joined, pub), []);
  }

  /* ---------- who can join ---------- */

  /** The places of the members that hold a role. */
  function Holders(members: seq<Member>, pid: string): set<nat> {
    set i: nat | i < |members| && members[i].pid == pid
  }

  lemma HoldersAppend(members: seq<Member>, m: Member, pid: string)
    ensures |Holders(members + [m], pid)| == |Holders(members, pid)| + if m.pid == pid then 1 else 0
  {
    var more: set<nat> := if m.pid == pid then {|members|} else {};
    assert Holders(members + [m], pid) == Holders(members, pid) + more;
  }

  lemma {:induction false} SlotsCount(members: seq<Member>, pid: string)
    ensures SlotsTaken(members, pid) == |Holders(members, pid)|
  {
    if members != [] {
      var (n, last) := (|members| - 1, members[|members| - 1]);
      assert members == members[..n] + [last];
      SlotsCount(members[..n], pid);
      SlotsAppend(members[..n], last, pid);
      HoldersAppend(members[..n], last, pid);
    }
  }

  lemma {:induction false} RoleFirst(roles: seq<Role>, pid: string)
    ensures FindRole(roles, pid).Some?
       <==> exists i :: 0 <= i < |roles| && roles[i].id == pid
    ensures forall i | 0 <= i < |roles| && roles[i].id == pid && (forall j | 0 <= j < i :: roles[j].id != pid) ::
              FindRole(roles, pid) == Some(roles[i])
  {
    if roles != [] {
      RoleFirst(roles[1..], pid);
      if roles[0].id != pid {
        forall i | 0 <= i < |roles| && roles[i].id == pid && (forall j | 0 <= j < i :: roles[j].id != pid)
          ensures FindRole(roles, pid) == Some(roles[i])
        {
          assert roles[1..][i - 1] == roles[i];
          assert forall j | 0 <= j < i - 1 :: roles[1..][j] == roles[j + 1];
        }
        if i :| 0 <= i < |roles| && roles[i].id == pid {
          assert roles[1..][i - 1] == roles[i];
        }
      }
    }
  }

  /** Who can join, exactly: a key that is no member's yet, for a role that exists and has fewer
      holders than seats. The new member then comes last, and holds the role. */
  lemma JoinExactly(s: Session, pub: string, pid: string, i: nat)
    requires i < |s.roles| && s.roles[i].id == pid && forall j | 0 <= j < i :: s.roles[j].id != pid
    ensures Join(s, pub, pid).Returns?
       <==> (forall m | m in s.members :: m.pub != pub) && |Holders(s.members, pid)| < s.roles[i].seats
    ensures Join(s, pub, pid).Returns? ==> Join(s, pub, pid).value.members == s.members + [Member(pub, pid)]
  {
    RoleFirst(s.roles, pid);
    SlotsCount(s.members, pid);
  }

  lemma JoinNeedsRole(s: Session, pub: string, pid: string)
    requires forall r | r in s.roles :: r.id != pid
    ensures Join(s, pub, pid).Throws?
  {
    RoleFirst(s.roles, pid);
  }
}
