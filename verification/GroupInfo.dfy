/** group_info: the three flat tables of a group, their rebuild and the migration they drive (tair/group_info.cpp). */
module GroupInfos {
  import opened Tables
  import opened Books
  import opened Passes
  import opened QuickTables
  import opened Shortcut
  import opened Migrations
  import opened TableBuilders
  import opened Decisions

  class GroupInfo {
    const buckets: nat
    const copies: nat
    const hash: array<nat>       // the table in use
    const m: array<nat>          // the state of the migration
    const d: array<nat>          // where the migration leads
    var machine: map<nat, int>   // migrate_machine
    var left: int                // migrate_block_count
    var clientVersion: nat
    var serverVersion: nat
    var needMigrate: bool        // data_need_move == TAIR_DATA_NEED_MIGRATE

    constructor (buckets: nat, copies: nat, needMigrate: bool)
      requires copies > 0
      ensures Valid() && fresh(m) && fresh(d) && fresh(hash) && State().Inv() && State().ShortcutRight()
      ensures this.buckets == buckets && this.copies == copies && this.needMigrate == needMigrate
    {
      this.buckets, this.copies, this.needMigrate := buckets, copies, needMigrate;
      hash := new nat[copies * buckets](_ => 0);
      m := new nat[copies * buckets](_ => 0);
      d := new nat[copies * buckets](_ => 0);
      machine, left, clientVersion, serverVersion := map[], -1, 1, 1;
      new;
      assert m[..] == d[..];
      NothingPending(State());
      NoneFlagged(State());
    }

    ghost predicate Valid() reads this {
      && copies > 0
      && m.Length == d.Length == hash.Length == copies * buckets
      && m != d && m != hash && d != hash
    }

    ghost function State(): Migration
      reads this, m, d
    {
      Migration(copies, buckets, m[..], d[..], machine, left)
    }

    // ----- reading and writing whole tables

    /** load_hash_table: the flat table m with every id's position. */
    method Load(posOf: nat -> nat) returns (t: Table)
      requires Valid()
      ensures Tables.Shaped(t, copies, buckets)
      ensures forall l, b :: 0 <= l < copies && 0 <= b < buckets ==> t[l][b].pos == posOf(t[l][b].id)
      ensures forall b: nat :: b < buckets ==> IdsOf(Column(t, b)) == State().MCol(b)
    {
      t := [];
      for l := 0 to copies
        invariant |t| == l
        invariant forall k :: 0 <= k < l ==> |t[k]| == buckets
        invariant forall k: nat, b: nat :: k < l && b < buckets ==>
                    Cell(k, b, buckets) < m.Length && t[k][b] == Server(m[Cell(k, b, buckets)], posOf(m[Cell(k, b, buckets)]))
      {
        var line := [];
        for b := 0 to buckets
          invariant |line| == b
          invariant forall c: nat :: c < b ==>
                      Cell(l, c, buckets) < m.Length && line[c] == Server(m[Cell(l, c, buckets)], posOf(m[Cell(l, c, buckets)]))
        {
          CellBound(l, b, copies, buckets);
          var id := m[l * buckets + b];
          line := line + [Server(id, posOf(id))];
        }
        t := t + [line];
      }
    }

    /** write_hash_table. */
    method Write(t: Table, a: array<nat>)
      requires Valid() && Tables.Shaped(t, copies, buckets) && a.Length == copies * buckets
      modifies a
      ensures forall b: nat :: b < buckets ==> Col(a[..], copies, buckets, b) == IdsOf(Column(t, b))
    {
      var p := 0;
      for l := 0 to copies
        invariant p <= a.Length && a[..p] == Flat(t[..l])
      {
        FlatLength(t[..l], buckets);
        NextLine(l, buckets);
        Gap(l, copies, buckets);
        for b := 0 to buckets
          invariant p == l * buckets + b <= a.Length && a[..p] == Flat(t[..l]) + IdsOf(t[l])[..b]
        {
          a[p] := t[l][b].id;
          p := p + 1;
        }
        assert t[..l + 1][..l] == t[..l] && IdsOf(t[l])[..buckets] == IdsOf(t[l]);
      }
      assert t[..copies] == t;
      FlatLength(t, buckets);
      assert a[..p] == a[..];
      forall b: nat | b < buckets ensures Col(a[..], copies, buckets, b) == IdsOf(Column(t, b)) {
        FlatColumn(t, b, buckets);
      }
    }

    // ----- which buckets must move

    /** The inner loops of fill_migrate_machine: is some slave of d no slave of m? */
    method SlaveMissing(b: nat) returns (missing: bool)
      requires Valid() && b < buckets
      ensures missing <==> exists j :: 1 <= j < copies && !Holds(State().MCol(b), State().DCol(b)[j])
    {
      missing := false;
      var j := 1;
      while j < copies && !missing
        invariant 1 <= j && (missing ==> j <= copies)
        invariant missing ==> exists i :: 1 <= i < copies && !Holds(State().MCol(b), State().DCol(b)[i])
        invariant !missing ==> forall i :: 1 <= i < j && i < copies ==> Holds(State().MCol(b), State().DCol(b)[i])
      {
        CellBound(j, b, copies, buckets);
        var found := SlaveFound(b, d[j * buckets + b]);
        if !found {
          missing := true;
          assert !Holds(State().MCol(b), State().DCol(b)[j]);
        }
        j := j + 1;
      }
    }

    method SlaveFound(b: nat, id: nat) returns (found: bool)
      requires Valid() && b < buckets
      ensures found <==> Holds(State().MCol(b), id)
    {
      found := false;
      var k := 1;
      while k < copies && !found
        invariant 1 <= k
        invariant found ==> Holds(State().MCol(b), id)
        invariant !found ==> forall i :: 1 <= i < k && i < copies ==> State().MCol(b)[i] != id
      {
        CellBound(k, b, copies, buckets);
        assert State().MCol(b)[k] == m[Cell(k, b, buckets)];
        if m[k * buckets + b] == id {
          found := true;
        }
        k := k + 1;
      }
    }

    method MustMove(b: nat) returns (f: bool)
      requires Valid() && b < buckets
      ensures f <==> State().Flags(b)
    {
      CellBound(0, b, copies, buckets);
      assert State().MCol(b)[0] == m[b] && State().DCol(b)[0] == d[b];
      if m[b] == 0 {
        return false;
      }
      if m[b] != d[b] {
        return true;
      }
      f := SlaveMissing(b);
    }

    /** fill_migrate_machine. */
    method FillMigrateMachine() returns (count: int)
      requires Valid()
      modifies this`machine
      ensures old(State()).FilledUpTo(machine, count, buckets)
    {
      machine := map[];
      count := 0;
      for b := 0 to buckets
        invariant old(State()).FilledUpTo(machine, count, b)
      {
        var f := MustMove(b);
        assert State().Flags(b) == old(State()).Flags(b);
        if f {
          CellBound(0, b, copies, buckets);
          assert old(State()).MCol(b)[0] == m[b];
          machine := machine[m[b] := Count(machine, m[b]) + 1];
          count := count + 1;
        }
      }
    }

    // ----- rebuild

    /** Buckets whose master is not among the servers take their whole column from d (for one copy, or when loss
        is tolerated). */
    method AdoptLost(up: seq<Server>)
      requires Valid() && hash[..] == m[..]
      modifies m, hash
      ensures hash[..] == m[..]
      ensures forall b: nat :: b < buckets ==>
                State().MCol(b) == if Known(old(State()).MCol(b)[0], up) then old(State()).MCol(b) else State().DCol(b)
    {
      ghost var g := State();
      for b := 0 to buckets
        invariant hash[..] == m[..] && d[..] == g.d
        invariant forall c: nat :: c < b ==> State().MCol(c) == if Known(g.MCol(c)[0], up) then g.MCol(c) else g.DCol(c)
        invariant forall c: nat :: b <= c < buckets ==> State().MCol(c) == g.MCol(c)
      {
        CellBound(0, b, copies, buckets);
        assert State().MCol(b)[0] == m[b];
        if !Known(m[b], up) {
          TakeColumnColumns(m[..], d[..], copies, buckets, b);
          var changed := CopyColumn(m, b);
          changed := CopyColumn(hash, b);
        }
      }
    }

    /** The table-writing part of rebuild, with migration. */
    method Install(quick: Table, dest: Table, up: seq<Server>, allowLoss: bool)
      requires Valid() && Tables.Shaped(quick, copies, buckets) && Tables.Shaped(dest, copies, buckets)
      modifies m, d, hash
      ensures hash[..] == m[..]
      ensures forall b: nat :: b < buckets ==> State().DCol(b) == IdsOf(Column(dest, b))
      ensures forall b: nat :: b < buckets ==> State().MCol(b) == Installed(Column(quick, b), Column(dest, b), up, allowLoss)
    {
      Write(dest, d);
      Write(quick, m);
      Write(quick, hash);
      assert forall b: nat :: b < buckets ==> State().DCol(b) == IdsOf(Column(dest, b));
      assert forall b: nat :: b < buckets ==> State().MCol(b) == IdsOf(Column(quick, b));
      EqualColumns(m[..], hash[..], copies, buckets);
      if copies <= 1 || allowLoss {
        AdoptLost(up);
      }
    }

    /** The two builder calls of rebuild. */
    method BuildTables(source: Table, up: seq<Server>, strategy: Strategy, allowLoss: bool, migrate: bool)
      returns (ok: bool, quick: Table, dest: Table)
      requires copies > 0 && ProperShape(source, up, copies, buckets) && |up| > 0
      requires strategy.RackSafety? && strategy.normal ==> copies >= 2
      ensures ok ==> Built(source, quick, dest, up, copies, buckets, strategy, allowLoss, migrate)
      ensures strategy.LoadBalance? ==>
                (ok <==> |up| >= copies && (migrate && copies > 1 && !allowLoss ==> NothingLost(source, up, copies, buckets)))
    {
      var builder := new TableBuilder(buckets, copies, up, strategy, allowLoss, source);
      quick, dest := source, source;
      if migrate && copies > 1 {
        ok := builder.BuildQuickTable();
        if !ok {
          return false, quick, dest;
        }
        quick := builder.table;
      }
      var r := builder.Rebuild(source);
      ok, dest := r == BuildOk, builder.table;
    }

    method LoadAndBuild(up: seq<Server>, posOf: nat -> nat, strategy: Strategy, allowLoss: bool, migrate: bool)
      returns (ok: bool, ghost source: Table, quick: Table, dest: Table)
      requires Valid() && |up| > 0
      requires ProperServers(up) && forall s :: s in up ==> s.pos == posOf(s.id)
      requires strategy.RackSafety? && strategy.normal ==> copies >= 2
      ensures ok ==> Loaded(State(), source, posOf) && ProperShape(source, up, copies, buckets)
      ensures ok ==> Built(source, quick, dest, up, copies, buckets, strategy, allowLoss, migrate)
      ensures strategy.LoadBalance? ==>
                (ok <==> |up| >= copies && (migrate && copies > 1 && !allowLoss ==> AllSurvive(State(), up)))
    {
      var t := Load(posOf);
      LoadedIsProper(t, posOf, up, copies, buckets);
      LossSeen(State(), t, posOf, up);
      ok, quick, dest := BuildTables(t, up, strategy, allowLoss, migrate);
      source := t;
    }

    /** Write the new tables: m and the table in use get the quick table if there is something to migrate, else d. */
    method Publish(ghost source: Table, quick: Table, dest: Table, up: seq<Server>, ghost posOf: nat -> nat,
                   ghost strategy: Strategy, allowLoss: bool, migrate: bool)
      requires Valid() && ProperShape(source, up, copies, buckets) && Loaded(State(), source, posOf)
      requires |up| > 0 && forall s :: s in up ==> s.pos == posOf(s.id)
      requires Built(source, quick, dest, up, copies, buckets, strategy, allowLoss, migrate)
      modifies m, d, hash
      ensures hash[..] == m[..] && State().ShortcutRight()
      ensures Destined(d[..], copies, buckets, up, posOf, strategy)
      ensures if migrate then Carried(old(State()), State(), up) else m[..] == d[..]
    {
      ghost var g := State();
      if migrate {
        Install(quick, dest, up, allowLoss);
        ReadyToMigrate(State(), source, quick, dest, up, strategy, allowLoss);
        QuickCarries(g, State(), source, quick, dest, up, posOf, strategy, allowLoss);
      } else {
        Write(dest, d);
        Write(dest, m);
        Write(dest, hash);
        EqualColumns(m[..], hash[..], copies, buckets);
        EqualColumns(m[..], d[..], copies, buckets);
        NoneFlagged(State());
      }
      DestIsRight(State(), source, quick, dest, up, posOf, strategy, allowLoss, migrate);
    }

    /** Count the buckets to move. */
    method Recount(firstRun: bool)
      requires Valid() && State().ShortcutRight()
      requires firstRun ==> machine == map[] && m[..] == d[..]
      modifies this`machine, this`left
      ensures State().Inv() && State().ShortcutRight()
      ensures State() == old(State()).(machine := machine, left := left)
    {
      ghost var g := State();
      var count := 0;
      if firstRun {
        NothingPending(g.(left := -1));
      } else {
        count := FillMigrateMachine();
        FilledIsExact(g, machine, count);
      }
      left := if count > 0 then count else -1;
      SameFlags(g, machine, left);
    }

    /** A restart loses the machines and fills them anew while buckets are left to move: it comes back to the same state. */
    method Restart()
      requires Valid() && State().Inv() && State().ShortcutRight()
      modifies this`machine
      ensures State() == old(State())
    {
      ghost var g := State();
      if left > 0 {
        var count := FillMigrateMachine();
        RefillRestores(g, machine, count);
      } else {
        NothingLeft(g);
        machine := map[];
      }
    }

    method Switch(ghost source: Table, quick: Table, dest: Table, up: seq<Server>, ghost posOf: nat -> nat,
                  ghost strategy: Strategy, allowLoss: bool, migrate: bool, firstRun: bool)
      requires Valid() && ProperShape(source, up, copies, buckets) && Loaded(State(), source, posOf)
      requires |up| > 0 && forall s :: s in up ==> s.pos == posOf(s.id)
      requires Built(source, quick, dest, up, copies, buckets, strategy, allowLoss, migrate)
      requires firstRun ==> machine == map[] && !migrate
      modifies this`machine, this`left, m, d, hash
      ensures State().Inv() && State().ShortcutRight() && hash[..] == m[..]
      ensures Destined(d[..], copies, buckets, up, posOf, strategy)
      ensures if migrate then Carried(old(State()), State(), up) else m[..] == d[..]
    {
      ghost var was := State();
      Publish(source, quick, dest, up, posOf, strategy, allowLoss, migrate);
      ghost var g := State();
      Recount(firstRun);
      if migrate { SameCarried(was, g, State(), up); }
    }

    /** rebuild: a new destination table on available, pairwise different servers, with even masters (strategy 1) or copies in
        two racks (strategy 2), and a migration towards it whose bookkeeping is exact; meanwhile the table in use keeps
        every copy that survives. With strategy 1
        it fails, changing no table, exactly for want of servers or (when several copies are to migrate and
        no loss is tolerated) if some bucket has lost every copy. */
    method Rebuild(up: seq<Server>, posOf: nat -> nat, minServers: nat, strategy: Strategy, allowLoss: bool)
      returns (ok: bool)
      requires Valid() && State().Inv() && minServers > 0
      requires ProperServers(up) && forall s :: s in up ==> s.pos == posOf(s.id)
      requires strategy.RackSafety? && strategy.normal ==> copies >= 2
      modifies this`machine, this`left, this`clientVersion, this`serverVersion, m, d, hash
      ensures State().Inv()
      ensures !ok ==> State() == old(State()) && hash[..] == old(hash[..])
      ensures ok ==> hash[..] == m[..] && State().ShortcutRight()
      ensures ok ==> Destined(d[..], copies, buckets, up, posOf, strategy)
      ensures ok ==> if needMigrate && !old(FirstRun()) then Carried(old(State()), State(), up) else m[..] == d[..]
      ensures strategy.LoadBalance? ==>
                (ok <==> |up| >= minServers && |up| >= copies &&
                         (needMigrate && copies > 1 && !allowLoss && !old(FirstRun()) ==> AllSurvive(old(State()), up)))
      ensures serverVersion == old(serverVersion) + 1 && clientVersion == old(clientVersion) + 1
    {
      clientVersion, serverVersion := clientVersion + 1, serverVersion + 1;
      var firstRun := FirstRun();
      if |up| < minServers {
        return false;
      }
      var migrate := needMigrate && !firstRun;
      ghost var source;
      var quick, dest;
      ok, source, quick, dest := LoadAndBuild(up, posOf, strategy, allowLoss, migrate);
      if ok {
        if firstRun { UntouchedMachine(State()); }
        Switch(source, quick, dest, up, posOf, strategy, allowLoss, migrate, firstRun);
      }
    }

    predicate FirstRun()
      reads this, m
    {
      forall i :: 0 <= i < m.Length ==> m[i] == 0
    }

    // ----- finishing the migration of one bucket

    /** Take the column of a bucket from d, entry by entry; `changed` says whether any differed. */
    method CopyColumn(a: array<nat>, b: nat) returns (changed: bool)
      requires Valid() && b < buckets && a != d && a.Length == d.Length
      modifies a
      ensures a[..] == TakeColumn(old(a[..]), d[..], buckets, b)
      ensures changed <==> Col(old(a[..]), copies, buckets, b) != Col(d[..], copies, buckets, b)
    {
      changed := false;
      ghost var was, want := a[..], d[..];
      PartlyTakenEnds(was, want, copies, buckets, b);
      for l := 0 to copies
        invariant a[..] == PartlyTaken(was, want, buckets, b, Cell(l, b, buckets)) && d[..] == want
        invariant changed <==> exists k :: 0 <= k < l && Col(was, copies, buckets, b)[k] != Col(want, copies, buckets, b)[k]
      {
        var idx := l * buckets + b;
        CellBound(l, b, copies, buckets);
        PartlyTakenStep(was, want, copies, buckets, b, l);
        assert Col(was, copies, buckets, b)[l] == was[idx] && Col(want, copies, buckets, b)[l] == want[idx];
        if a[idx] != d[idx] {
          a[idx] := d[idx];
          changed := true;
        }
      }
    }

    /** set_migrating_hashtable. */
    method SetMigrating(bucket: nat, server: nat)
      requires Valid() && State().Inv() && State().Safe(bucket, server)
      modifies this`machine, this`left, m
      ensures State() == old(State()).Finish(bucket, server) && State().Inv()
      ensures old(State().ShortcutRight()) ==> State().ShortcutRight()
    {
      FinishKeepsInv(State(), bucket, server);
      if State().ShortcutRight() { FinishKeepsShortcut(State(), bucket, server); }
      if bucket > buckets || left == -1 {
        return;
      }
      if bucket < buckets { CellBound(0, bucket, copies, buckets); }
      if m[bucket] != server {
        return;
      }
      ghost var g := State();
      var changed := CopyColumn(m, bucket);
      if changed {
        left := left - 1;
        assert server in machine;
        var n := machine[server] - 1;
        machine := if n == 0 then machine - {server} else machine[server := n];
      } else {
        AdvanceNothing(g, bucket);
      }
    }

    /** do_finish_migrate: reports for another version are refused. */
    method FinishMigrate(server: nat, version: nat, bucket: nat) returns (accepted: bool)
      requires Valid() && State().Inv() && (needMigrate && version == serverVersion ==> State().Safe(bucket, server))
      modifies this`machine, this`left, m
      ensures State().Inv() && (old(State().ShortcutRight()) ==> State().ShortcutRight())
      ensures accepted <==> needMigrate && version == serverVersion
      ensures State() == if accepted then old(State()).Finish(bucket, server) else old(State())
    {
      accepted := needMigrate && version == serverVersion;
      if accepted {
        SetMigrating(bucket, server);
      }
    }

    /** check_migrate_complete: with no server left to wait for, the table in use becomes d, which m then equals. */
    method CheckMigrateComplete(down: set<nat>) returns (done: bool)
      requires Valid() && State().Inv()
      modifies this`left, this`clientVersion, this`serverVersion, hash
      ensures State().Inv() && (old(State().ShortcutRight()) ==> State().ShortcutRight())
      ensures done <==> (!needMigrate || old(left) == -1 || machine == map[] || exists id :: id in machine && id in down)
      ensures needMigrate && old(left) != -1 && machine == map[] ==> m[..] == d[..] && hash[..] == d[..] && left == -1
      ensures !needMigrate || old(left) == -1 || machine != map[] ==> left == old(left) && hash[..] == old(hash[..])
      ensures var step := if needMigrate && old(left) != -1 && machine == map[] then 1 else 0;
              clientVersion == old(clientVersion) + step && serverVersion == old(serverVersion) + step
    {
      if !needMigrate || left == -1 {
        return true;
      }
      if machine != map[] {
        return exists id :: id in machine && id in down;
      }
      EmptyMachineMeansDone(State());
      assert m[..] == d[..];
      clientVersion, serverVersion := clientVersion + 1, serverVersion + 1;
      forall i | 0 <= i < hash.Length { hash[i] := d[i]; }
      left := -1;
      NothingPending(State());
      NoneFlagged(State());
      return true;
    }
  }

  lemma NextLine(l: nat, buckets: nat)
    ensures (l + 1) * buckets == l * buckets + buckets
  {
  }

  /** The lines of a table, one after the other. */
  ghost function Flat(t: Table): seq<nat> {
    if t == [] then [] else Flat(t[..|t| - 1]) + IdsOf(t[|t| - 1])
  }

  lemma {:induction false} FlatLength(t: Table, buckets: nat)
    requires Tables.Shaped(t, |t|, buckets)
    ensures |Flat(t)| == |t| * buckets
  {
    if t != [] {
      FlatLength(t[..|t| - 1], buckets);
      NextLine(|t| - 1, buckets);
    }
  }

  lemma {:induction false} FlatAt(t: Table, l: nat, b: nat, buckets: nat)
    requires Tables.Shaped(t, |t|, buckets) && l < |t| && b < buckets
    ensures Cell(l, b, buckets) < |Flat(t)| && Flat(t)[Cell(l, b, buckets)] == t[l][b].id
  {
    var n := |t| - 1;
    FlatLength(t[..n], buckets);
    if l < n {
      FlatAt(t[..n], l, b, buckets);
    }
  }

  lemma FlatColumn(t: Table, b: nat, buckets: nat)
    requires Tables.Shaped(t, |t|, buckets) && b < buckets && |Flat(t)| == |t| * buckets
    ensures Col(Flat(t), |t|, buckets, b) == IdsOf(Column(t, b))
  {
    forall l: nat | l < |t| ensures Col(Flat(t), |t|, buckets, b)[l] == IdsOf(Column(t, b))[l] {
      FlatAt(t, l, b, buckets);
    }
  }

  /** Ids of available servers, pairwise different. */
  ghost predicate Placed(ids: seq<nat>, up: seq<Server>) {
    && (forall l :: 0 <= l < |ids| ==> Known(ids[l], up))
    && (forall k, l :: 0 <= k < l < |ids| ==> ids[k] != ids[l])
  }

  /** Every column of a flat table is placed. */
  ghost predicate AllPlaced(t: seq<nat>, copies: nat, buckets: nat, up: seq<Server>)
    requires |t| == copies * buckets
  {
    forall b: nat :: b < buckets ==> Placed(Col(t, copies, buckets, b), up)
  }

  ghost predicate Survives(ids: seq<nat>, up: seq<Server>) {
    exists l :: 0 <= l < |ids| && Known(ids[l], up)
  }

  /** Every bucket of m has a copy on some server. */
  ghost predicate AllSurvive(g: Migration, up: seq<Server>)
    requires g.Shaped()
  {
    forall b: nat :: b < g.buckets ==> Survives(g.MCol(b), up)
  }

  ghost predicate NothingLost(source: Table, up: seq<Server>, copies: nat, buckets: nat)
    requires Tables.Shaped(source, copies, buckets)
  {
    forall b: nat :: b < buckets ==> HasCopy(Column(source, b), up)
  }

  /** What the builder makes of a source table. */
  ghost predicate Built(source: Table, quick: Table, dest: Table, up: seq<Server>, copies: nat, buckets: nat,
                        strategy: Strategy, allowLoss: bool, migrate: bool)
    requires copies > 0 && Tables.Shaped(source, copies, buckets)
  {
    && Tables.Shaped(quick, copies, buckets) && Tables.Shaped(dest, copies, buckets)
    && (forall b: nat :: b < buckets ==> Rebuilt(Column(source, b), Column(dest, b), up, strategy.RackSafety?))
    && (strategy.LoadBalance? ==> EvenLine(dest[0], up))
    && (migrate ==> if copies == 1 then quick == source else
          (forall b: nat :: b < buckets ==> QuickColumn(Column(source, b), Column(quick, b), up))
          && (allowLoss || NothingLost(source, up, copies, buckets)))
  }

  /** Every server stands in the line as often as every other one, or once more. */
  ghost predicate EvenLine(line: seq<Server>, up: seq<Server>) {
    |up| > 0 && forall s :: s in up ==> multiset(line)[s] == |line| / |up| || multiset(line)[s] == |line| / |up| + 1
  }

  ghost predicate Balanced(t: seq<nat>, buckets: nat, up: seq<Server>) {
    && |up| > 0 && buckets <= |t|
    && forall s :: s in up ==> multiset(t[..buckets])[s.id] == buckets / |up| || multiset(t[..buckets])[s.id] == buckets / |up| + 1
  }

  ghost predicate TwoRacks(ids: seq<nat>, posOf: nat -> nat) {
    exists i, j :: 0 <= i < j < |ids| && posOf(ids[i]) != posOf(ids[j])
  }

  ghost predicate AllRacked(t: seq<nat>, copies: nat, buckets: nat, posOf: nat -> nat)
    requires |t| == copies * buckets
  {
    forall b: nat :: b < buckets ==> TwoRacks(Col(t, copies, buckets, b), posOf)
  }

  /** The promises of the destination table, by strategy. */
  ghost predicate Destined(t: seq<nat>, copies: nat, buckets: nat, up: seq<Server>, posOf: nat -> nat, strategy: Strategy)
    requires |t| == copies * buckets
  {
    && AllPlaced(t, copies, buckets, up)
    && (strategy.LoadBalance? ==> Balanced(t, buckets, up))
    && (strategy.RackSafety? && copies > 1 ==> AllRacked(t, copies, buckets, posOf))
  }

  /** A column that keeps the copies on available servers, each as often as before, and nothing else. */
  ghost predicate Conserved(w: seq<nat>, c: seq<nat>, up: seq<Server>) {
    && |c| == |w| > 0 && Known(c[0], up)
    && (forall s :: s in up ==> multiset(c)[s.id] == multiset(w)[s.id])
    && forall l :: 0 <= l < |c| ==> Known(c[l], up) || c[l] == 0
  }

  /** Buckets with a copy left are conserved, the others start where they are going. */
  ghost predicate Carried(g: Migration, g': Migration, up: seq<Server>) {
    && g.Shaped() && g'.Shaped() && g.copies == g'.copies && g.buckets == g'.buckets
    && forall b: nat :: b < g.buckets ==> if Survives(g.MCol(b), up) then Conserved(g.MCol(b), g'.MCol(b), up) else g'.MCol(b) == g'.DCol(b)
  }

  ghost predicate Loaded(g: Migration, t: Table, posOf: nat -> nat) {
    && g.Shaped() && Tables.Shaped(t, g.copies, g.buckets)
    && (forall l, b :: 0 <= l < g.copies && 0 <= b < g.buckets ==> t[l][b].pos == posOf(t[l][b].id))
    && (forall b: nat :: b < g.buckets ==> IdsOf(Column(t, b)) == g.MCol(b))
  }

  lemma PlacedColumn(w: seq<Server>, c: seq<Server>, up: seq<Server>, racks: bool)
    requires |w| == |c| > 0 && Rebuilt(w, c, up, racks)
    ensures Placed(IdsOf(c), up)
  {
  }

  lemma RackedColumn(w: seq<Server>, c: seq<Server>, up: seq<Server>, posOf: nat -> nat)
    requires |w| == |c| > 1 && Rebuilt(w, c, up, true) && forall s :: s in up ==> s.pos == posOf(s.id)
    ensures TwoRacks(IdsOf(c), posOf)
  {
    var i, j :| 0 <= i < j < |c| && c[i].pos != c[j].pos;
    assert IdsOf(c)[i] == c[i].id && IdsOf(c)[j] == c[j].id;
  }

  lemma CountFirst<T>(q: seq<T>, x: T)
    requires q != []
    ensures multiset(q)[x] == multiset(q[1..])[x] + if q[0] == x then 1 else 0
  {
    assert q == [q[0]] + q[1..];
  }

  /** Ids count like the servers they stand for. */
  lemma {:induction false} CountIds(c: seq<Server>, s: Server)
    requires forall l :: 0 <= l < |c| && c[l].id == s.id ==> c[l] == s
    ensures multiset(IdsOf(c))[s.id] == multiset(c)[s]
  {
    if c != [] {
      var q := IdsOf(c);
      CountIds(c[1..], s);
      CountFirst(c, s);
      CountFirst(q, s.id);
      assert q[1..] == IdsOf(c[1..]);
    }
  }

  lemma FirstLine(t: seq<nat>, dest: Table, copies: nat, buckets: nat)
    requires copies > 0 && |t| == copies * buckets && Tables.Shaped(dest, copies, buckets)
    requires forall b: nat :: b < buckets ==> Col(t, copies, buckets, b) == IdsOf(Column(dest, b))
    ensures buckets <= |t| && t[..buckets] == IdsOf(dest[0])
  {
    Gap(0, copies, buckets);
    forall b: nat | b < buckets ensures t[..buckets][b] == IdsOf(dest[0])[b] {
      assert Col(t, copies, buckets, b)[0] == IdsOf(Column(dest, b))[0];
    }
  }

  lemma LineIsBalanced(t: seq<nat>, dest: Table, copies: nat, buckets: nat, up: seq<Server>)
    requires copies > 0 && |t| == copies * buckets && Tables.Shaped(dest, copies, buckets) && ProperServers(up)
    requires forall b: nat :: b < buckets ==> Col(t, copies, buckets, b) == IdsOf(Column(dest, b))
    requires EvenLine(dest[0], up) && forall b: nat :: b < buckets ==> dest[0][b] in up
    ensures Balanced(t, buckets, up)
  {
    FirstLine(t, dest, copies, buckets);
    forall s | s in up ensures multiset(t[..buckets])[s.id] == multiset(dest[0])[s] { CountIds(dest[0], s); }
  }

  lemma DestIsPlaced(g: Migration, source: Table, dest: Table, up: seq<Server>, racks: bool)
    requires g.Shaped() && Tables.Shaped(source, g.copies, g.buckets) && Tables.Shaped(dest, g.copies, g.buckets)
    requires forall b: nat :: b < g.buckets ==> Rebuilt(Column(source, b), Column(dest, b), up, racks)
    requires forall b: nat :: b < g.buckets ==> g.DCol(b) == IdsOf(Column(dest, b))
    ensures AllPlaced(g.d, g.copies, g.buckets, up) && forall b: nat :: b < g.buckets ==> dest[0][b] in up
  {
    forall b: nat | b < g.buckets ensures Placed(Col(g.d, g.copies, g.buckets, b), up) && dest[0][b] in up {
      assert g.DCol(b) == IdsOf(Column(dest, b));
      PlacedColumn(Column(source, b), Column(dest, b), up, racks);
      assert Column(dest, b)[0] == dest[0][b];
    }
  }

  lemma DestIsRacked(g: Migration, source: Table, dest: Table, up: seq<Server>, posOf: nat -> nat)
    requires g.Shaped() && Tables.Shaped(source, g.copies, g.buckets) && Tables.Shaped(dest, g.copies, g.buckets) && g.copies > 1
    requires forall b: nat :: b < g.buckets ==> Rebuilt(Column(source, b), Column(dest, b), up, true)
    requires forall b: nat :: b < g.buckets ==> g.DCol(b) == IdsOf(Column(dest, b))
    requires forall s :: s in up ==> s.pos == posOf(s.id)
    ensures AllRacked(g.d, g.copies, g.buckets, posOf)
  {
    forall b: nat | b < g.buckets ensures TwoRacks(Col(g.d, g.copies, g.buckets, b), posOf) {
      assert g.DCol(b) == IdsOf(Column(dest, b));
      RackedColumn(Column(source, b), Column(dest, b), up, posOf);
    }
  }

  lemma DestIsRight(g: Migration, source: Table, quick: Table, dest: Table, up: seq<Server>, posOf: nat -> nat,
                    strategy: Strategy, allowLoss: bool, migrate: bool)
    requires g.Shaped() && ProperShape(source, up, g.copies, g.buckets) && forall s :: s in up ==> s.pos == posOf(s.id)
    requires Built(source, quick, dest, up, g.copies, g.buckets, strategy, allowLoss, migrate)
    requires forall b: nat :: b < g.buckets ==> g.DCol(b) == IdsOf(Column(dest, b))
    ensures Destined(g.d, g.copies, g.buckets, up, posOf, strategy)
  {
    DestIsPlaced(g, source, dest, up, strategy.RackSafety?);
    if strategy.RackSafety? && g.copies > 1 { DestIsRacked(g, source, dest, up, posOf); }
    if strategy.LoadBalance? { LineIsBalanced(g.d, dest, g.copies, g.buckets, up); }
  }

  // ----- what the table in use keeps

  lemma ConservedColumn(w: seq<Server>, q: seq<Server>, up: seq<Server>, posOf: nat -> nat)
    requires |w| == |q| > 0 && ProperServers(up) && HasCopy(w, up) && forall s :: s in up ==> s.pos == posOf(s.id)
    requires forall l :: 0 <= l < |w| ==> w[l].pos == posOf(w[l].id)
    requires if |w| == 1 then q == w else QuickColumn(w, q, up)
    ensures Conserved(IdsOf(w), IdsOf(q), up) && Known(q[0].id, up)
  {
    if |w| > 1 {
      QuickConserves(w, q, up);
      forall s | s in up ensures multiset(IdsOf(q))[s.id] == multiset(IdsOf(w))[s.id] {
        CountIds(q, s);
        CountIds(w, s);
      }
    }
  }

  lemma SurvivesIsCopy(w: seq<Server>, up: seq<Server>, posOf: nat -> nat)
    requires forall s :: s in up ==> s.pos == posOf(s.id)
    requires forall l :: 0 <= l < |w| ==> w[l].pos == posOf(w[l].id)
    ensures Survives(IdsOf(w), up) <==> HasCopy(w, up)
  {
    forall l | 0 <= l < |w| ensures w[l] in up <==> Known(IdsOf(w)[l], up) {}
  }

  lemma CarriedColumn(w: seq<Server>, q: seq<Server>, d: seq<Server>, up: seq<Server>, posOf: nat -> nat, allowLoss: bool)
    requires |w| == |q| == |d| > 0 && ProperServers(up) && forall s :: s in up ==> s.pos == posOf(s.id)
    requires forall l :: 0 <= l < |w| ==> w[l].pos == posOf(w[l].id)
    requires if |w| == 1 then q == w else QuickColumn(w, q, up) && (allowLoss || HasCopy(w, up))
    ensures var m := Installed(q, d, up, allowLoss);
            if Survives(IdsOf(w), up) then Conserved(IdsOf(w), m, up) else m == IdsOf(d)
  {
    SurvivesIsCopy(w, up, posOf);
    if HasCopy(w, up) {
      ConservedColumn(w, q, up, posOf);
    } else if |w| > 1 {
      LostForGood(w, q, up);
    } else {
      assert !Known(IdsOf(w)[0], up);
    }
  }

  lemma LoadedColumn(g: Migration, t: Table, posOf: nat -> nat, b: nat)
    requires Loaded(g, t, posOf) && b < g.buckets
    ensures IdsOf(Column(t, b)) == g.MCol(b)
    ensures forall l :: 0 <= l < g.copies ==> Column(t, b)[l].pos == posOf(Column(t, b)[l].id)
  {
  }

  lemma QuickCarries(g: Migration, g': Migration, source: Table, quick: Table, dest: Table, up: seq<Server>, posOf: nat -> nat,
                     strategy: Strategy, allowLoss: bool)
    requires Loaded(g, source, posOf) && ProperShape(source, up, g.copies, g.buckets) && forall s :: s in up ==> s.pos == posOf(s.id)
    requires Built(source, quick, dest, up, g.copies, g.buckets, strategy, allowLoss, true)
    requires g'.Shaped() && g'.copies == g.copies && g'.buckets == g.buckets
    requires forall b: nat :: b < g.buckets ==> g'.DCol(b) == IdsOf(Column(dest, b))
    requires forall b: nat :: b < g.buckets ==> g'.MCol(b) == Installed(Column(quick, b), Column(dest, b), up, allowLoss)
    ensures Carried(g, g', up)
  {
    forall b: nat | b < g.buckets
      ensures if Survives(g.MCol(b), up) then Conserved(g.MCol(b), g'.MCol(b), up) else g'.MCol(b) == g'.DCol(b)
    {
      var w := Column(source, b);
      LoadedColumn(g, source, posOf, b);
      CarriedColumn(w, Column(quick, b), Column(dest, b), up, posOf, allowLoss);
    }
  }

  lemma SameCarried(was: Migration, g: Migration, g': Migration, up: seq<Server>)
    requires Carried(was, g, up) && g' == g.(machine := g'.machine, left := g'.left)
    ensures Carried(was, g', up)
  {
    assert forall b: nat :: b < g.buckets ==> g'.MCol(b) == g.MCol(b) && g'.DCol(b) == g.DCol(b);
  }

  lemma SameFlags(g: Migration, machine: map<nat, int>, left: int)
    requires g.Shaped() && g.ShortcutRight()
    ensures g.(machine := machine, left := left).ShortcutRight()
  {
    var g' := g.(machine := machine, left := left);
    assert forall b: nat :: b < g.buckets ==> g'.MCol(b) == g.MCol(b) && g'.DCol(b) == g.DCol(b);
  }

  /** No buckets left means no debts. */
  lemma NothingLeft(g: Migration)
    requires g.Inv() && g.left <= 0
    ensures g.machine == map[]
  {
    forall id ensures id !in g.machine {
      assert g.Owes(id);
      PendingWithin(g, id, g.buckets);
    }
  }

  lemma {:induction false} PendingWithin(g: Migration, id: nat, n: nat)
    requires g.Shaped() && n <= g.buckets
    ensures g.Pending(id, n) <= g.Differing(n)
  {
    if n > 0 { PendingWithin(g, id, n - 1); }
  }

  lemma LoadedIsProper(t: Table, posOf: nat -> nat, up: seq<Server>, copies: nat, buckets: nat)
    requires Tables.Shaped(t, copies, buckets) && ProperServers(up) && forall s :: s in up ==> s.pos == posOf(s.id)
    requires forall l, b :: 0 <= l < copies && 0 <= b < buckets ==> t[l][b].pos == posOf(t[l][b].id)
    ensures ProperShape(t, up, copies, buckets)
  {
  }

  /** A bucket has an available copy exactly if one of its ids is known. */
  lemma LossSeen(g: Migration, t: Table, posOf: nat -> nat, up: seq<Server>)
    requires g.Shaped() && Tables.Shaped(t, g.copies, g.buckets) && forall s :: s in up ==> s.pos == posOf(s.id)
    requires forall l, b :: 0 <= l < g.copies && 0 <= b < g.buckets ==> t[l][b].pos == posOf(t[l][b].id)
    requires forall b: nat :: b < g.buckets ==> IdsOf(Column(t, b)) == g.MCol(b)
    ensures NothingLost(t, up, g.copies, g.buckets) <==> AllSurvive(g, up)
  {
    forall b: nat | b < g.buckets ensures HasCopy(Column(t, b), up) <==> Survives(g.MCol(b), up) {
      var c := Column(t, b);
      forall l | 0 <= l < g.copies ensures c[l] in up <==> Known(g.MCol(b)[l], up) {
        assert g.MCol(b)[l] == c[l].id;
      }
    }
  }

  lemma ReadyToMigrate(g: Migration, source: Table, quick: Table, dest: Table, up: seq<Server>, strategy: Strategy, allowLoss: bool)
    requires g.Shaped() && ProperShape(source, up, g.copies, g.buckets)
    requires Built(source, quick, dest, up, g.copies, g.buckets, strategy, allowLoss, true)
    requires forall b: nat :: b < g.buckets ==> g.DCol(b) == IdsOf(Column(dest, b))
    requires forall b: nat :: b < g.buckets ==> g.MCol(b) == Installed(Column(quick, b), Column(dest, b), up, allowLoss)
    ensures g.ShortcutRight()
  {
    forall b: nat | b < g.buckets ensures (g.Flags(b) <==> g.Differs(b)) && g.MCol(b)[0] != 0 {
      InstalledIsRight(Column(source, b), Column(quick, b), Column(dest, b), up, allowLoss);
    }
  }

  lemma NoneFlagged(g: Migration)
    requires g.Shaped() && g.m == g.d
    ensures g.ShortcutRight()
  {
    forall b: nat | b < g.buckets ensures !g.Flags(b) { SameIsNotFlagged(g.MCol(b)); }
  }

  /** Before the first run no server owes anything. */
  lemma UntouchedMachine(g: Migration)
    requires g.Inv() && forall i :: 0 <= i < |g.m| ==> g.m[i] == 0
    ensures g.machine == map[]
  {
    forall id ensures id !in g.machine {
      assert g.Owes(id);
      NoMasterNoDebt(g, id, g.buckets);
    }
  }

  lemma {:induction false} NoMasterNoDebt(g: Migration, id: nat, n: nat)
    requires g.Inv() && n <= g.buckets && forall i :: 0 <= i < |g.m| ==> g.m[i] == 0
    ensures g.Pending(id, n) == 0
  {
    if n > 0 {
      NoMasterNoDebt(g, id, n - 1);
      CellBound(0, n - 1, g.copies, g.buckets);
      assert g.MCol(n - 1)[0] == 0;
    }
  }

  /** TakeColumn for the cells below a bound. */
  ghost function PartlyTaken(s: seq<nat>, t: seq<nat>, buckets: nat, b: nat, bound: nat): (s': seq<nat>)
    requires |s| == |t| && b < buckets
    ensures |s'| == |s|
  {
    seq(|s|, j requires 0 <= j < |s| => if j % buckets == b && j < bound then t[j] else s[j])
  }

  lemma PartlyTakenStep(s: seq<nat>, t: seq<nat>, copies: nat, buckets: nat, b: nat, l: nat)
    requires |s| == |t| == copies * buckets && b < buckets && l < copies && Cell(l, b, buckets) < |s|
    ensures PartlyTaken(s, t, buckets, b, Cell(l, b, buckets))[Cell(l, b, buckets)] == s[Cell(l, b, buckets)]
    ensures PartlyTaken(s, t, buckets, b, Cell(l + 1, b, buckets))
         == PartlyTaken(s, t, buckets, b, Cell(l, b, buckets))[Cell(l, b, buckets) := t[Cell(l, b, buckets)]]
  {
    var idx := Cell(l, b, buckets);
    CellMod(l, b, buckets);
    Gap(l, l + 1, buckets);
    var x, y := PartlyTaken(s, t, buckets, b, Cell(l + 1, b, buckets)), PartlyTaken(s, t, buckets, b, idx)[idx := t[idx]];
    forall j: nat | j < |s| ensures x[j] == y[j] {
      if idx < j < Cell(l + 1, b, buckets) && j % buckets == b { NextInColumn(j, l, b, buckets); }
    }
  }

  lemma PartlyTakenEnds(s: seq<nat>, t: seq<nat>, copies: nat, buckets: nat, b: nat)
    requires |s| == |t| == copies * buckets && b < buckets
    ensures PartlyTaken(s, t, buckets, b, Cell(0, b, buckets)) == s
    ensures PartlyTaken(s, t, buckets, b, Cell(copies, b, buckets)) == TakeColumn(s, t, buckets, b)
  {
    var x := PartlyTaken(s, t, buckets, b, b);
    forall j: nat | j < |s| ensures x[j] == s[j] {
      if j < b { assert j % buckets == j; }
    }
  }

  lemma NextInColumn(j: nat, l: nat, b: nat, buckets: nat)
    requires b < buckets && Cell(l, b, buckets) <= j < Cell(l + 1, b, buckets) && j % buckets == b
    ensures j == Cell(l, b, buckets)
  {
    var q := j / buckets;
    assert j == Cell(q, b, buckets);
    Gap(q, l, buckets);
    Gap(q, l + 1, buckets);
  }

  /** Advancing a column that already agrees changes nothing. */
  lemma AdvanceNothing(g: Migration, bucket: nat)
    requires g.Shaped() && bucket < g.buckets && !g.Differs(bucket)
    ensures g.Advance(bucket) == g.m
  {
    AdvanceMoves(g, bucket);
    EqualColumns(g.Advance(bucket), g.m, g.copies, g.buckets);
  }

  lemma NothingPending(g: Migration)
    requires g.Shaped() && g.m == g.d && g.machine == map[] && g.left == -1
    ensures g.Inv()
  {
    forall id ensures g.Owes(id) { NoneDiffer(g, id, g.buckets); }
    NoneDiffer(g, 0, g.buckets);
  }

  lemma {:induction false} NoneDiffer(g: Migration, id: nat, n: nat)
    requires g.Shaped() && g.m == g.d && n <= g.buckets
    ensures g.Pending(id, n) == 0 && g.Differing(n) == 0
  {
    if n > 0 { NoneDiffer(g, id, n - 1); }
  }
}
