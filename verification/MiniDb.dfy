/** Mini databases: a group's rows are added as new, and a flip makes one of them active and
    sends the group's active one to wait. */
module MiniDb {
  import opened Transactions
  import opened Wrappers

  datatype MiniState = New | Active | Waiting | OtherState(text: string)
  datatype Mini = Mini(name: Option<string>, group: string, path: string, host: string, state: MiniState)
  datatype Db = Db(rows: map<int, Mini>, nextId: nat)

  // ---------------------------------------------------------------- names

  function Decimal(n: nat): string {
    if n < 10 then [Digit(n)] else Decimal(n / 10) + [Digit(n % 10)]
  }

  function Digit(d: nat): char
    requires d < 10
  {
    '0' + d as char
  }

  /** A group, a dot and the row's number. */
  function DefaultName(group: string, id: nat): string {
    group + "." + Decimal(id)
  }

  function Value(s: string): int {
    if s == "" then 0 else 10 * Value(s[..|s| - 1]) + (s[|s| - 1] as int - '0' as int)
  }

  lemma {:induction false} DecimalReadsBack(n: nat)
    ensures Value(Decimal(n)) == n
    ensures forall c | c in Decimal(n) :: '0' <= c <= '9'
    ensures Decimal(n) != "" && (Decimal(n)[0] == '0' ==> n == 0 && |Decimal(n)| == 1)
  {
    if n >= 10 {
      DecimalReadsBack(n / 10);
      var s := Decimal(n);
      assert s[..|s| - 1] == Decimal(n / 10);
    }
  }

  /** Whatever dots and digits the groups contain, a default name determines its group and
      its number: no number contains a dot, so the last dot is the one before the number. */
  lemma DefaultNameIsInjective(g: string, i: nat, h: string, j: nat)
    requires DefaultName(g, i) == DefaultName(h, j)
    ensures g == h && i == j
  {
    var n := DefaultName(g, i);
    LastDot(g, i);
    LastDot(h, j);
    assert n[..|g|] == g && n[..|h|] == h;
    assert n[|g| + 1..] == Decimal(i) && n[|h| + 1..] == Decimal(j);
    DecimalReadsBack(i);
    DecimalReadsBack(j);
  }

  lemma LastDot(g: string, i: nat)
    ensures var n := DefaultName(g, i);
      |g| < |n| && n[|g|] == '.' && forall k | |g| < k < |n| :: n[k] != '.'
  {
    var n := DefaultName(g, i);
    DecimalReadsBack(i);
    forall k | |g| < k < |n|
      ensures n[k] != '.'
    {
      assert n[k] == Decimal(i)[k - |g| - 1] && n[k] in Decimal(i);
    }
  }

  // ---------------------------------------------------------------- adding

  function Added(db: Db, name: Option<string>, group: string, path: string, host: string): Db {
    var n := if name.Some? then name.value else DefaultName(group, db.nextId);
    Db(db.rows[db.nextId := Mini(Some(n), group, path + "/" + n, host, New)], db.nextId + 1)
  }

  /** One row more, new, under the next number: with the name given or else the group, a dot
      and that number, and with that name as the last part of its path. */
  lemma AddedEffect(db: Db, name: Option<string>, group: string, path: string, host: string)
    ensures var t, id := Added(db, name, group, path, host), db.nextId;
      && t.nextId == id + 1 && t.rows.Keys == db.rows.Keys + {id}
      && (forall a | a in db.rows && a != id :: t.rows[a] == db.rows[a])
      && t.rows[id].state == New && t.rows[id].group == group && t.rows[id].host == host
      && t.rows[id].name == Some(if name.Some? then name.value else group + "." + Decimal(id))
      && t.rows[id].path == path + "/" + t.rows[id].name.value
  {
  }

  /** -addminidvodbrun.  The row is inserted first and named after its number second. */
  method Add(db: Session<Db>, name: Option<string>, group: string, path: Option<string>, host: Option<string>)
    returns (ok: bool, id: nat)
    requires db.Idle()
    modifies db
    ensures ok == (path.Some? && host.Some? && old(db.healthy) >= 4)
    ensures db.committed == if ok then Added(old(db.committed), name, group, path.value, host.value)
                            else old(db.committed)
    ensures ok ==> id == old(db.committed).nextId
  {
    id := 0;
    ok := db.Begin();
    if !ok { return; }
    if path.None? || host.None? {  // the columns must not be NULL
      return false, 0;
    }
    id := db.working.nextId;
    ok := db.Execute(Db(db.working.rows[id := Mini(name, group, path.value, host.value, New)], id + 1));
    if !ok { return; }
    var n := if name.Some? then name.value else DefaultName(group, id);
    var row := db.working.rows[id].(name := Some(n), path := path.value + "/" + n);
    ghost var t := Added(old(db.committed), name, group, path.value, host.value);
    assert db.working.rows[id := row] == t.rows;
    ok := db.Execute(db.working.(rows := db.working.rows[id := row]));
    if !ok { return; }
    ok := db.Commit();
  }

  // ---------------------------------------------------------------- flipping

  predicate Ready(db: Db, group: string, id: int) {
    id in db.rows && db.rows[id].state == New && db.rows[id].group == group && db.rows[id].name.Some?
  }

  predicate AnyReady(db: Db, group: string) {
    exists id | id in db.rows :: Ready(db, group, id)
  }

  predicate IsActive(db: Db, group: string, id: int) {
    id in db.rows && db.rows[id].state == Active && db.rows[id].group == group
  }

  function Retire(db: Db, group: string): Db {
    db.(rows := map id | id in db.rows ::
          if IsActive(db, group, id) then db.rows[id].(state := Waiting) else db.rows[id])
  }

  function Activate(db: Db, id: int): Db {
    if id !in db.rows then db else db.(rows := db.rows[id := db.rows[id].(state := Active)])
  }

  function Flipped(db: Db, group: string, id: int): Db {
    Activate(Retire(db, group), id)
  }

  ghost predicate IsNamedNew(row: Mini, group: string) {
    row.state == New && row.group == group && row.name != None
  }

  /** -flipminidvodbrun.  The database chooses which of the ready rows becomes active. */
  method Flip(db: Session<Db>, group: string) returns (ok: bool)
    requires db.Idle()
    modifies db
    ensures (forall id | id in old(db.committed).rows :: !IsNamedNew(old(db.committed).rows[id], group)) ==>
              db.committed == old(db.committed) && ok == (old(db.healthy) >= 2)
    ensures (exists id | id in old(db.committed).rows :: IsNamedNew(old(db.committed).rows[id], group)) ==>
              && ok == (old(db.healthy) >= 5)
              && (!ok ==> db.committed == old(db.committed))
              && (ok ==> exists id | id in old(db.committed).rows :: IsNamedNew(old(db.committed).rows[id], group)
                                      && db.committed == Flipped(old(db.committed), group, id))
  {
    ok := db.Begin();
    if !ok { return; }
    ok := db.Query();
    if !ok {
      db.Rollback();
      return;
    }
    ghost var was := db.working;
    assert forall id | id in was.rows :: IsNamedNew(was.rows[id], group) <==> Ready(was, group, id);
    if !AnyReady(db.working, group) {
      return true;
    }
    ok := db.Execute(Retire(db.working, group));
    if !ok {
      db.Rollback();
      return;
    }
    RetireKeepsReady(was, group);
    var id :| id in db.working.rows && Ready(db.working, group, id);
    ok := db.Execute(Activate(db.working, id));
    if !ok {
      db.Rollback();
      return;
    }
    ok := db.Commit();
    if !ok {
      db.Rollback();
    }
  }

  lemma RetireKeepsReady(db: Db, group: string)
    ensures forall id :: Ready(Retire(db, group), group, id) <==> Ready(db, group, id)
    ensures AnyReady(Retire(db, group), group) == AnyReady(db, group)
  {
  }

  /** After a flip the chosen row is the group's only active one, the one that was active
      waits, no row appears, disappears or changes in any other way, and no other group's
      rows change at all. */
  lemma FlipEffect(db: Db, group: string, id: int)
    requires id in db.rows && IsNamedNew(db.rows[id], group)
    ensures var t := Flipped(db, group, id);
      && t.rows.Keys == db.rows.Keys && t.nextId == db.nextId
      && (forall r | r in t.rows :: t.rows[r].state == Active && t.rows[r].group == group <==> r == id)
      && (forall r | r in db.rows :: t.rows[r] ==
            if r == id then db.rows[r].(state := Active)
            else if db.rows[r].state == Active && db.rows[r].group == group then db.rows[r].(state := Waiting)
            else db.rows[r])
  {
  }

  // ---------------------------------------------------------------- histories

  datatype Command = AddRow(name: Option<string>, group: string, path: string, host: string) | FlipGroup(group: string)

  /** What a command may leave committed. */
  ghost predicate Outcome(s: Db, c: Command, t: Db) {
    || t == s
    || (c.AddRow? && t == Added(s, c.name, c.group, c.path, c.host))
    || (c.FlipGroup? && exists id :: Ready(s, c.group, id) && t == Flipped(s, c.group, id))
  }

  ghost predicate History(states: seq<Db>, commands: seq<Command>) {
    && |states| == |commands| + 1
    && forall i | 0 <= i < |commands| :: Outcome(states[i], commands[i], states[i + 1])
  }

  /** At most one row of each group is active, numbers are not used ahead of time, and every
      row has a name, which is the last part of its path. */
  ghost predicate Inv(db: Db) {
    && OneActive(db)
    && (forall a | a in db.rows :: a < db.nextId && PathEndsInName(db.rows[a]))
  }

  ghost predicate OneActive(db: Db) {
    forall a, b | a in db.rows && b in db.rows && db.rows[a].state == Active && db.rows[b].state == Active
                  && db.rows[a].group == db.rows[b].group :: a == b
  }

  lemma EmptyTableIsFine(next: nat)
    ensures Inv(Db(map[], next))
  {
  }

  ghost predicate PathEndsInName(row: Mini) {
    row.name.Some? && var n := "/" + row.name.value; |n| <= |row.path| && row.path[|row.path| - |n|..] == n
  }

  /** Rows stay, under their number, name, group, path and host. */
  ghost predicate Grows(s: Db, t: Db) {
    && s.nextId <= t.nextId
    && forall a | a in s.rows :: a in t.rows && t.rows[a].(state := s.rows[a].state) == s.rows[a]
  }

  lemma AddedKeepsInv(db: Db, name: Option<string>, group: string, path: string, host: string)
    requires Inv(db)
    ensures Inv(Added(db, name, group, path, host))
  {
    var n := if name.Some? then name.value else DefaultName(group, db.nextId);
    NewPathEndsInName(n, group, path, host);
  }

  lemma NewPathEndsInName(n: string, group: string, path: string, host: string)
    ensures PathEndsInName(Mini(Some(n), group, path + "/" + n, host, New))
  {
    assert path + "/" + n == path + ("/" + n);
  }

  lemma FlippedKeepsInv(db: Db, group: string, id: int)
    requires Inv(db) && Ready(db, group, id)
    ensures Inv(Flipped(db, group, id)) && Grows(db, Flipped(db, group, id))
  {
    FlippedHasOneActive(db, group, id);
    FlippedKeepsRows(db, group, id);
  }

  lemma FlippedKeepsRows(db: Db, group: string, id: int)
    requires Inv(db) && Ready(db, group, id)
    ensures var t := Flipped(db, group, id);
      Grows(db, t) && forall a | a in t.rows :: a < t.nextId && PathEndsInName(t.rows[a])
  {
    var t := Flipped(db, group, id);
    forall a | a in t.rows
      ensures a in db.rows && t.rows[a].(state := db.rows[a].state) == db.rows[a] && PathEndsInName(t.rows[a])
    {
      assert PathEndsInName(db.rows[a]);
    }
  }

  lemma FlippedHasOneActive(db: Db, group: string, id: int)
    requires OneActive(db) && Ready(db, group, id)
    ensures OneActive(Flipped(db, group, id))
  {
    var t := Flipped(db, group, id);
    FlipEffect(db, group, id);
    forall a, b | a in t.rows && b in t.rows && t.rows[a].state == Active && t.rows[b].state == Active
                  && t.rows[a].group == t.rows[b].group
      ensures a == b
    {
      if t.rows[a].group == group {
        assert IsActive(t, group, a) && IsActive(t, group, b);
      }
    }
  }

  lemma OutcomeKeepsInv(s: Db, c: Command, t: Db)
    requires Inv(s) && Outcome(s, c, t)
    ensures Inv(t) && Grows(s, t)
  {
    if t != s && c.AddRow? {
      AddedKeepsInv(s, c.name, c.group, c.path, c.host);
    } else if t != s {
      var id :| Ready(s, c.group, id) && t == Flipped(s, c.group, id);
      FlippedKeepsInv(s, c.group, id);
    }
  }

  /** Over every history each group has at most one active row, and every row a name. */
  lemma {:induction false} HistoryKeepsInv(states: seq<Db>, commands: seq<Command>, n: nat)
    requires History(states, commands) && Inv(states[0]) && n <= |commands|
    ensures Inv(states[n])
  {
    if n > 0 {
      HistoryKeepsInv(states, commands, n - 1);
      assert Outcome(states[n - 1], commands[n - 1], states[n - 1 + 1]);
      OutcomeKeepsInv(states[n - 1], commands[n - 1], states[n]);
    }
  }

  /** And rows stay under their names. */
  lemma {:induction false} HistoryGrows(states: seq<Db>, commands: seq<Command>, i: nat, n: nat)
    requires History(states, commands) && Inv(states[0]) && i <= n <= |commands|
    ensures Grows(states[i], states[n])
  {
    if i < n {
      HistoryGrows(states, commands, i, n - 1);
      HistoryKeepsInv(states, commands, n - 1);
      assert Outcome(states[n - 1], commands[n - 1], states[n - 1 + 1]);
      OutcomeKeepsInv(states[n - 1], commands[n - 1], states[n]);
      GrowthAdds(states[i], states[n - 1], states[n]);
    }
  }

  lemma GrowthAdds(s: Db, t: Db, u: Db)
    requires Grows(s, t) && Grows(t, u)
    ensures Grows(s, u)
  {
  }

  /** Default names given anywhere in a history differ from one another at its end. */
  lemma DefaultNamesDiffer(states: seq<Db>, commands: seq<Command>, i: nat, j: nat)
    requires History(states, commands) && Inv(states[0])
    requires i < j < |commands|
    requires commands[i].AddRow? && commands[i].name == None && states[i + 1] != states[i]
    requires commands[j].AddRow? && commands[j].name == None && states[j + 1] != states[j]
    ensures var end, a, b := states[|commands|], states[i].nextId, states[j].nextId;
      a in end.rows && b in end.rows && end.rows[a].name != end.rows[b].name
  {
    var end, a, b := states[|commands|], states[i].nextId, states[j].nextId;
    HistoryGrows(states, commands, i + 1, |commands|);
    HistoryGrows(states, commands, j + 1, |commands|);
    HistoryGrows(states, commands, i + 1, j);
    NamesStay(states[i], commands[i], states[i + 1], end);
    NamesStay(states[j], commands[j], states[j + 1], end);
    if DefaultName(commands[i].group, a) == DefaultName(commands[j].group, b) {
      DefaultNameIsInjective(commands[i].group, a, commands[j].group, b);
    }
  }

  lemma NamesStay(s: Db, c: Command, t: Db, end: Db)
    requires c.AddRow? && c.name == None && t != s && Outcome(s, c, t) && Grows(t, end)
    ensures s.nextId < t.nextId && s.nextId in end.rows
    ensures end.rows[s.nextId].name == Some(DefaultName(c.group, s.nextId))
  {
    assert s.nextId in t.rows;
  }
}
