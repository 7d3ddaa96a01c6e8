/** The loops of the command-line tool: collecting state roots, migrating
    every state of a chain, summing miner debts and computing miner
    balances. Migration, flushing and validation are collaborators given as
    functions. */
module Commands {
  import opened Blockstore
  import opened Buffered
  import opened ChainLib
  import opened Actors
  import opened Balances

  // ---------------------------------------------------------------------
  // info roots

  /** `num` slots: the collected values first, zero values after them. */
  function Padded(vals: seq<IterVal>, num: nat): (r: seq<IterVal>)
    requires |vals| <= num
    ensures |r| == num && r[..|vals|] == vals
    ensures forall i :: |vals| <= i < num ==> r[i] == ZeroVal
  {
    vals + seq(num - |vals|, _ => ZeroVal)
  }

  /** Fills `num` slots with iterator values, stepping once after each
      value, until the slots are full or the iterator is done; a failed
      step ends the loop with its error. */
  method CollectRoots(iter: ChainStateIterator, num: nat) returns (r: Outcome, roots: array<IterVal>)
    requires iter.currParent.Some?
    modifies iter
    ensures fresh(roots)
    ensures var run := Roots(iter.bs.Layers(), iter.decode, old(iter.currBlock), old(iter.currParent.value), num);
      r == run.end && roots[..] == Padded(run.vals, num)
  {
    ghost var ls := iter.bs.Layers();
    ghost var run := Roots(ls, iter.decode, iter.currBlock, iter.currParent.value, num);
    roots := new IterVal[num](_ => ZeroVal);
    var i := 0;
    while !iter.Done() && i < num
      invariant 0 <= i <= num && iter.currParent.Some?
      invariant iter.bs.Layers() == ls
      invariant i <= |run.vals| && Filled(roots[..], run.vals, i)
      invariant Roots(ls, iter.decode, iter.currBlock, iter.currParent.value, num - i) == Run(run.vals[i..], run.end)
      decreases num - i
    {
      ghost var blk, parent := iter.currBlock, iter.currParent.value;
      ghost var before := roots[..];
      var e := CollectOne(iter, roots, i);
      RootsAdvance(ls, iter.decode, blk, parent, num - i, run, i, before, roots[..], e, iter.currBlock, iter.currParent);
      if e.Fail? {
        return e, roots;
      }
      i := i + 1;
    }
    RootsDone(ls, iter.decode, iter.currBlock, iter.currParent.value, num - i);
    assert |run.vals| == i;
    FilledPadded(roots[..], run.vals, i);
    r := Pass;
  }

  /** One round of the roots loop, on values: the slot written and the step
      taken continue the run, or a failed step ends it with the slots
      filled so far. */
  lemma RootsAdvance(ls: seq<Layer>, decode: Decoder, blk: Header, parent: Header, n: nat, run: Run, i: nat,
                     before: seq<IterVal>, after: seq<IterVal>, e: Outcome, blk': Header, parent': Option<Header>)
    requires n > 0 && parent.height != 0 && i < |before|
    requires i <= |run.vals| && Roots(ls, decode, blk, parent, n) == Run(run.vals[i..], run.end)
    requires Filled(before, run.vals, i) && after == before[i := IterVal(parent.height, blk.parentStateRoot)]
    requires var g := GetParent(ls, decode, parent);
      && (g.Ok? ==> e == Pass && blk' == parent && parent' == Some(g.value))
      && (g.Err? ==> e == Fail(g.error))
    ensures e.Fail? ==> e == run.end && i + 1 == |run.vals| && after == Padded(run.vals, |after|)
    ensures e.Pass? ==>
      && parent'.Some? && i + 1 <= |run.vals| && Filled(after, run.vals, i + 1)
      && Roots(ls, decode, blk', parent'.value, n - 1) == Run(run.vals[i + 1..], run.end)
  {
    RootsAt(ls, decode, blk, parent, n, run.vals, run.end, i);
    FilledStep(before, run.vals, i);
    if e.Fail? {
      FilledPadded(after, run.vals, i + 1);
    }
  }

  /** The first `i` slots hold the first `i` values, the rest zero values. */
  ghost predicate Filled(roots: seq<IterVal>, vals: seq<IterVal>, i: nat) {
    i <= |vals| && forall j :: 0 <= j < |roots| ==> roots[j] == if j < i then vals[j] else ZeroVal
  }

  lemma FilledStep(roots: seq<IterVal>, vals: seq<IterVal>, i: nat)
    requires Filled(roots, vals, i) && i < |vals| && i < |roots|
    ensures Filled(roots[i := vals[i]], vals, i + 1)
  {
  }

  lemma FilledPadded(roots: seq<IterVal>, vals: seq<IterVal>, i: nat)
    requires Filled(roots, vals, i) && i == |vals| <= |roots|
    ensures roots == Padded(vals, |roots|)
  {
  }

  /** The body of the roots loop: stores the current value in slot `i`
      and steps once. */
  method CollectOne(iter: ChainStateIterator, roots: array<IterVal>, i: nat) returns (e: Outcome)
    requires iter.currParent.Some? && iter.currParent.value.height != 0 && i < roots.Length
    modifies iter, roots
    ensures roots[..] == old(roots[..])[i := IterVal(old(iter.currParent.value.height), old(iter.currBlock.parentStateRoot))]
    ensures var g := GetParent(iter.bs.Layers(), iter.decode, old(iter.currParent.value));
      && (g.Ok? ==> e == Pass && iter.currBlock == old(iter.currParent.value) && iter.currParent == Some(g.value))
      && (g.Err? ==> e == Fail(g.error))
  {
    roots[i] := iter.Val();
    e := iter.Step();
  }

  /** When the roots still to collect from (`blk`, `parent`) are
      `vals[i..]`, the next one is `vals[i]`, and after a step either the
      rest follows or the failure ends the run there. */
  lemma RootsAt(ls: seq<Layer>, decode: Decoder, blk: Header, parent: Header, n: nat,
                vals: seq<IterVal>, end: Outcome, i: nat)
    requires n > 0 && parent.height != 0
    requires i <= |vals| && Roots(ls, decode, blk, parent, n) == Run(vals[i..], end)
    ensures i < |vals| && vals[i] == IterVal(parent.height, blk.parentStateRoot)
    ensures var g := GetParent(ls, decode, parent);
      && (g.Err? ==> |vals| == i + 1 && end == Fail(g.error))
      && (g.Ok? ==> Roots(ls, decode, parent, g.value, n - 1) == Run(vals[i + 1..], end))
  {
    assert vals[i + 1..] == vals[i..][1..];
  }

  /** Roots collects nothing once the count is used up or the walk is done. */
  lemma RootsDone(ls: seq<Layer>, decode: Decoder, blk: Header, parent: Header, n: nat)
    requires n == 0 || parent.height == 0
    ensures Roots(ls, decode, blk, parent, n) == Run([], Pass)
  {
  }

  /** The roots command: needs a tip and a count; prints `num` entries
      (unfilled slots zero-valued) unless opening the walk or a step fails.
      `argc` is the number of arguments; their parsing is not modelled. */
  method RunRoots(argc: nat, tip: Key, num: nat, open: Result<Opened>, decode: Decoder)
    returns (r: Outcome, printed: seq<IterVal>)
    ensures argc < 2 ==> r == Fail(NotEnoughArgs) && printed == []
    ensures argc >= 2 && open.Err? ==> r == Fail(open.error) && printed == []
    ensures argc >= 2 && open.Ok? ==>
      var ls := [EmptyLayer, open.value.read, open.value.write];
      var s := Start(ls, decode, tip);
      && (s.Err? ==> r == Fail(s.error) && printed == [])
      && (s.Ok? ==>
            var run := Roots(ls, decode, s.value.0, s.value.1, num);
            r == run.end && printed == if r.Pass? then Padded(run.vals, num) else [])
  {
    if argc < 2 {
      return Fail(NotEnoughArgs), [];
    }
    var chn := new Chain();
    var it := chn.NewChainStateIterator(tip, open, decode);
    if it.Err? {
      return Fail(it.error), [];
    }
    var roots;
    r, roots := CollectRoots(it.value, num);
    if r.Fail? {
      return r, [];
    }
    printed := roots[..];
  }

  // ---------------------------------------------------------------------
  // migrate chain

  /** Go's `%`, which truncates towards zero: the remainder takes the
      sign of the dividend. */
  function GoRem(a: int, b: int): (r: int)
    requires b != 0
    ensures Abs(r) < Abs(b)
    ensures r != 0 ==> (r < 0 <==> a < 0)
    ensures (a - r) % Abs(b) == 0
  {
    TruncatedRem(a, Abs(b));
    if a >= 0 then a % Abs(b) else -((-a) % Abs(b))
  }

  /** The remainder of the magnitude, with the sign of `a`, differs from
      `a` by a multiple of `m`. */
  lemma TruncatedRem(a: int, m: nat)
    requires m > 0
    ensures var r := if a >= 0 then a % m else -((-a) % m);
      Abs(r) < m && (a - r) % m == 0
  {
    if a >= 0 {
      assert a - a % m == m * (a / m);
      MultipleMod(m, a / m);
    } else {
      var x := -a;
      assert a + x % m == m * (-(x / m));
      MultipleMod(m, -(x / m));
    }
  }

  /** A multiple of `m` leaves no remainder. */
  lemma MultipleMod(m: nat, q: int)
    requires m > 0
    ensures (m * q) % m == 0
  {
    var d, r := (m * q) / m, (m * q) % m;
    assert m * q == m * d + r && 0 <= r < m;
    assert r == m * (q - d);
    if q - d >= 1 {
      assert false;
    } else if q - d <= -1 {
      assert false;
    }
  }

  function Abs(x: int): nat {
    if x < 0 then -x else x
  }

  /** A height is migrated when the skip count is 0 or divides it. */
  predicate Selected(skip: int, h: nat) {
    skip == 0 || GoRem(h, skip) == 0
  }

  /** A negative skip count selects the same heights as its absolute
      value: heights are never negative, so the remainder is the
      mathematical one. */
  lemma SelectedByAbs(skip: int, h: nat)
    requires skip != 0
    ensures Selected(skip, h) <==> h % Abs(skip) == 0
  {
  }


  /** The collaborators of the migration loop. `migrate` returns the new
      state root and the migration's outcome; `flush` writes a state root's
      buffered blocks to disk; `validate` checks a migrated state when
      `validating` is set. */
  datatype Migration = Migration(
    skip: int,
    migrate: (Key, nat) -> (Key, Outcome),
    flush: Key -> Outcome,
    validate: (nat, Key) -> Outcome,
    validating: bool)

  /** One migration attempt as the tool reports it. */
  datatype Attempt = Attempt(height: nat, state: Key, root: Key, migrated: Outcome, flushed: Outcome)

  /** The attempts made and how the loop ended. */
  datatype Log = Log(attempts: seq<Attempt>, end: Outcome)

  /** Migrating and then flushing the state at `h`; the flush happens
      whatever the migration's outcome. */
  function Attempted(cfg: Migration, h: nat, s: Key): (a: Attempt)
    ensures a.height == h && a.state == s
    ensures (a.root, a.migrated) == cfg.migrate(s, h) && a.flushed == cfg.flush(a.root)
  {
    var out := cfg.migrate(s, h);
    Attempt(h, s, out.0, out.1, cfg.flush(out.0))
  }

  /** The migration loop from an iterator at (`blk`, `parent`): each value
      whose height is selected is migrated, flushed and optionally
      validated; migration and flush failures are reported and the loop
      goes on; a validation failure or a failed step ends it. */
  function Drive(ls: seq<Layer>, decode: Decoder, blk: Header, parent: Header, cfg: Migration): (r: Log)
    requires ParentsDescend(ls, decode) && Descends(ls, decode, parent)
    ensures |r.attempts| <= parent.height
    decreases parent.height
  {
    if parent.height == 0 then Log([], Pass)
    else
      var h := parent.height;
      var s := blk.parentStateRoot;
      var here := if Selected(cfg.skip, h) then [Attempted(cfg, h, s)] else [];
      var v := if here != [] && cfg.validating then cfg.validate(h, here[0].root) else Pass;
      if v.Fail? then Log(here, v)
      else
        match GetParent(ls, decode, parent)
        case Err(e) => Log(here, Fail(e))
        case Ok(p) =>
          ParentDescends(ls, decode, parent);
          var rest := Drive(ls, decode, parent, p, cfg);
          Log(here + rest.attempts, rest.end)
  }

  /** Each attempt of `at` migrates and flushes a selected height in
      1..`top`, and the heights attempted strictly decrease. */
  ghost predicate AttemptsBelow(cfg: Migration, at: seq<Attempt>, top: nat) {
    && (forall i :: 0 <= i < |at| ==>
          && at[i] == Attempted(cfg, at[i].height, at[i].state)
          && Selected(cfg.skip, at[i].height)
          && 0 < at[i].height <= top)
    && (forall i, j :: 0 <= i < j < |at| ==> at[j].height < at[i].height)
  }

  /** An attempt at `h` in front of attempts below `h`. */
  lemma AttemptsPrepend(cfg: Migration, here: seq<Attempt>, rest: seq<Attempt>, h: nat, below: nat)
    requires h > 0 && |here| <= 1 && below < h
    requires forall i :: 0 <= i < |here| ==> here[i] == Attempted(cfg, h, here[i].state) && Selected(cfg.skip, h)
    requires AttemptsBelow(cfg, rest, below)
    ensures AttemptsBelow(cfg, here + rest, h)
  {
    var all := here + rest;
    assert forall i :: |here| <= i < |all| ==> all[i] == rest[i - |here|];
  }

  /** Every attempt of the migration loop migrates and flushes a selected
      height of the walk, at most the starting parent's height and above
      genesis, and the heights attempted strictly decrease. */
  lemma {:induction false} DriveAttempts(ls: seq<Layer>, decode: Decoder, blk: Header, parent: Header, cfg: Migration)
    requires ParentsDescend(ls, decode) && Descends(ls, decode, parent)
    ensures AttemptsBelow(cfg, Drive(ls, decode, blk, parent, cfg).attempts, parent.height)
    decreases parent.height
  {
    if parent.height != 0 {
      var h := parent.height;
      var here := if Selected(cfg.skip, h) then [Attempted(cfg, h, blk.parentStateRoot)] else [];
      var v := if here != [] && cfg.validating then cfg.validate(h, here[0].root) else Pass;
      if v.Fail? {
        AttemptsPrepend(cfg, here, [], h, 0);
        assert here + [] == here;
      } else {
        match GetParent(ls, decode, parent)
        case Err(e) =>
          AttemptsPrepend(cfg, here, [], h, 0);
          assert here + [] == here;
        case Ok(p) =>
          ParentDescends(ls, decode, parent);
          DriveAttempts(ls, decode, parent, p, cfg);
          AttemptsPrepend(cfg, here, Drive(ls, decode, parent, p, cfg).attempts, h, p.height);
      }
    }
  }

  /** The values of `vals` whose heights are selected, in order. */
  function Select(skip: int, vals: seq<IterVal>): (r: seq<IterVal>)
    ensures |r| <= |vals|
    decreases |vals|
  {
    if vals == [] then []
    else (if Selected(skip, vals[0].height) then [vals[0]] else []) + Select(skip, vals[1..])
  }

  /** The values an attempt log covers. */
  function Visited(attempts: seq<Attempt>): (r: seq<IterVal>)
    ensures |r| == |attempts|
    ensures forall i :: 0 <= i < |r| ==> r[i] == IterVal(attempts[i].height, attempts[i].state)
  {
    seq(|attempts|, i requires 0 <= i < |attempts| => IterVal(attempts[i].height, attempts[i].state))
  }

  /** Without validation the migration loop visits the whole walk: it
      attempts exactly the selected values of Walk, in walk order, and ends
      as the walk ends. */
  lemma {:induction false} DriveFollowsWalk(ls: seq<Layer>, decode: Decoder, blk: Header, parent: Header, cfg: Migration)
    requires ParentsDescend(ls, decode) && Descends(ls, decode, parent)
    requires !cfg.validating
    ensures var d := Drive(ls, decode, blk, parent, cfg);
      var w := Walk(ls, decode, blk, parent);
      d.end == w.end && Visited(d.attempts) == Select(cfg.skip, w.vals)
    decreases parent.height
  {
    if parent.height != 0 {
      var h := parent.height;
      var s := blk.parentStateRoot;
      var v := IterVal(h, s);
      var here := if Selected(cfg.skip, h) then [Attempted(cfg, h, s)] else [];
      VisitedHere(cfg, h, s);
      match GetParent(ls, decode, parent)
      case Err(e) =>
        SelectCons(cfg.skip, v, []);
      case Ok(p) =>
        ParentDescends(ls, decode, parent);
        DriveFollowsWalk(ls, decode, parent, p, cfg);
        VisitedAppend(here, Drive(ls, decode, parent, p, cfg).attempts);
        SelectCons(cfg.skip, v, Walk(ls, decode, parent, p).vals);
    }
  }

  /** An attempt that validation lets through (or that is not validated). */
  ghost predicate Passes(cfg: Migration, a: Attempt) {
    !cfg.validating || cfg.validate(a.height, a.root) == Pass
  }

  /** How a migration log `d` relates to the selected values `sel` of a walk
      that ends with `end`: the attempts cover a prefix of `sel` in order,
      every attempt but the last passed validation, and the loop ends with
      the last attempt's validation error if that failed, and otherwise
      with the walk's own end after covering all of `sel`. */
  ghost predicate StopsAtValidation(cfg: Migration, d: Log, sel: seq<IterVal>, end: Outcome) {
    && |d.attempts| <= |sel|
    && Visited(d.attempts) == sel[..|d.attempts|]
    && (forall i :: 0 <= i < |d.attempts| - 1 ==> Passes(cfg, d.attempts[i]))
    && if d.attempts != [] && !Passes(cfg, d.attempts[|d.attempts| - 1])
       then d.end == cfg.validate(d.attempts[|d.attempts| - 1].height, d.attempts[|d.attempts| - 1].root)
       else d.end == end && |d.attempts| == |sel|
  }

  /** With or without validation, the migration loop follows the walk: it
      attempts the selected values in walk order and stops either at the
      first attempt whose validation fails, with that error, or where the
      walk ends, with the walk's outcome. */
  lemma {:induction false} DriveStopsAtValidation(ls: seq<Layer>, decode: Decoder, blk: Header, parent: Header, cfg: Migration)
    requires ParentsDescend(ls, decode) && Descends(ls, decode, parent)
    ensures var w := Walk(ls, decode, blk, parent);
      StopsAtValidation(cfg, Drive(ls, decode, blk, parent, cfg), Select(cfg.skip, w.vals), w.end)
    decreases parent.height
  {
    if parent.height != 0 {
      var h, s := parent.height, blk.parentStateRoot;
      var v := IterVal(h, s);
      var here := if Selected(cfg.skip, h) then [Attempted(cfg, h, s)] else [];
      var ok := if here != [] && cfg.validating then cfg.validate(h, here[0].root) else Pass;
      VisitedHere(cfg, h, s);
      var w := Walk(ls, decode, blk, parent);
      var tail := w.vals[1..];
      assert w.vals == [v] + tail;
      SelectCons(cfg.skip, v, tail);
      assert ok.Pass? ==> forall i :: 0 <= i < |here| ==> Passes(cfg, here[i]);
      match GetParent(ls, decode, parent)
      case Err(e) =>
      case Ok(p) =>
        if ok.Pass? {
          ParentDescends(ls, decode, parent);
          DriveStopsAtValidation(ls, decode, parent, p, cfg);
          var rest := Drive(ls, decode, parent, p, cfg);
          VisitedAppend(here, rest.attempts);
          StopsPrepend(cfg, here, Visited(here), rest, Select(cfg.skip, tail), w.end);
        }
    }
  }

  /** Prepending a passing attempt (or none) to a log keeps its relation to
      the selected values. */
  lemma StopsPrepend(cfg: Migration, here: seq<Attempt>, hv: seq<IterVal>, rest: Log, sel: seq<IterVal>, end: Outcome)
    requires |here| <= 1 && Visited(here) == hv && forall i :: 0 <= i < |here| ==> Passes(cfg, here[i])
    requires StopsAtValidation(cfg, rest, sel, end)
    ensures StopsAtValidation(cfg, Log(here + rest.attempts, rest.end), hv + sel, end)
  {
    var all := here + rest.attempts;
    VisitedAppend(here, rest.attempts);
    assert (hv + sel)[..|all|] == hv + sel[..|rest.attempts|];
    assert forall i :: |here| <= i < |all| ==> all[i] == rest.attempts[i - |here|];
    if rest.attempts != [] {
      assert all[|all| - 1] == rest.attempts[|rest.attempts| - 1];
    }
  }

  /** The value an attempt at `h` covers. */
  lemma VisitedHere(cfg: Migration, h: nat, s: Key)
    ensures Visited(if Selected(cfg.skip, h) then [Attempted(cfg, h, s)] else [])
         == if Selected(cfg.skip, h) then [IterVal(h, s)] else []
  {
  }

  lemma VisitedAppend(a: seq<Attempt>, b: seq<Attempt>)
    ensures Visited(a + b) == Visited(a) + Visited(b)
  {
  }

  lemma SelectCons(skip: int, v: IterVal, vs: seq<IterVal>)
    ensures Select(skip, [v] + vs) == (if Selected(skip, v.height) then [v] else []) + Select(skip, vs)
  {
    assert ([v] + vs)[1..] == vs;
  }

  /** With a skip count of 0 every value of the walk is migrated. */
  lemma {:induction false} SkipZeroSelectsAll(vals: seq<IterVal>)
    ensures Select(0, vals) == vals
    decreases |vals|
  {
    if vals != [] {
      SkipZeroSelectsAll(vals[1..]);
      assert [vals[0]] + vals[1..] == vals;
    }
  }

  /** Runs the migration loop on `iter` until it is done. */
  method MigrateLoop(iter: ChainStateIterator, cfg: Migration) returns (r: Outcome, attempts: seq<Attempt>)
    requires iter.currParent.Some?
    requires ParentsDescend(iter.bs.Layers(), iter.decode) && Descends(iter.bs.Layers(), iter.decode, iter.currParent.value)
    modifies iter
    ensures Log(attempts, r) == Drive(iter.bs.Layers(), iter.decode, old(iter.currBlock), old(iter.currParent.value), cfg)
  {
    ghost var ls := iter.bs.Layers();
    ghost var log := Drive(ls, iter.decode, iter.currBlock, iter.currParent.value, cfg);
    attempts := [];
    while !iter.Done()
      invariant iter.currParent.Some? && iter.bs.Layers() == ls
      invariant Descends(ls, iter.decode, iter.currParent.value)
      invariant |attempts| <= |log.attempts| && attempts == log.attempts[..|attempts|]
      invariant Drive(ls, iter.decode, iter.currBlock, iter.currParent.value, cfg) == Log(log.attempts[|attempts|..], log.end)
      decreases iter.currParent.value.height
    {
      ghost var blk, parent, done := iter.currBlock, iter.currParent.value, attempts;
      var val := iter.Val();
      var made, v := MigrateAt(cfg, val);
      attempts := attempts + made;
      var e := Pass;
      if v.Pass? {
        e := iter.Step();
      }
      DriveAdvance(ls, iter.decode, blk, parent, cfg, log, done, made, v, e, iter.currBlock, iter.currParent);
      if v.Fail? {
        return v, attempts;
      }
      if e.Fail? {
        return e, attempts;
      }
    }
    DriveDone(ls, iter.decode, iter.currBlock, iter.currParent.value, cfg);
    assert attempts == log.attempts;
    r := Pass;
  }

  /** The body of the migration loop at one value: a selected height is
      migrated and flushed, and validated when asked for. */
  method MigrateAt(cfg: Migration, val: IterVal) returns (made: seq<Attempt>, v: Outcome)
    ensures made == if Selected(cfg.skip, val.height) then [Attempted(cfg, val.height, val.state)] else []
    ensures v == if made != [] && cfg.validating then cfg.validate(val.height, made[0].root) else Pass
  {
    made, v := [], Pass;
    if Selected(cfg.skip, val.height) {
      var out := cfg.migrate(val.state, val.height);
      var flushed := cfg.flush(out.0);
      made := [Attempt(val.height, val.state, out.0, out.1, flushed)];
      if cfg.validating {
        v := cfg.validate(val.height, out.0);
      }
    }
  }

  /** When the attempts still to make from (`blk`, `parent`) are those of
      `log` from position `n` on, the next ones are the attempt at this
      height (if selected) and then, unless validation or the step fails,
      the attempts from the parent. */
  lemma DriveAt(ls: seq<Layer>, decode: Decoder, blk: Header, parent: Header, cfg: Migration, log: Log, n: nat)
    requires ParentsDescend(ls, decode) && Descends(ls, decode, parent) && parent.height != 0
    requires n <= |log.attempts| && Drive(ls, decode, blk, parent, cfg) == Log(log.attempts[n..], log.end)
    ensures var h, s := parent.height, blk.parentStateRoot;
      var here := if Selected(cfg.skip, h) then [Attempted(cfg, h, s)] else [];
      var v := if here != [] && cfg.validating then cfg.validate(h, here[0].root) else Pass;
      var g := GetParent(ls, decode, parent);
      && n + |here| <= |log.attempts| && log.attempts[n..n + |here|] == here
      && (v.Fail? ==> |log.attempts| == n + |here| && log.end == v)
      && (v.Pass? && g.Err? ==> |log.attempts| == n + |here| && log.end == Fail(g.error))
      && (v.Pass? && g.Ok? ==>
            Descends(ls, decode, g.value)
            && Drive(ls, decode, parent, g.value, cfg) == Log(log.attempts[n + |here|..], log.end))
  {
    var here := if Selected(cfg.skip, parent.height) then [Attempted(cfg, parent.height, blk.parentStateRoot)] else [];
    assert log.attempts[n..][..|here|] == log.attempts[n..n + |here|];
    assert log.attempts[n..][|here|..] == log.attempts[n + |here|..];
    if GetParent(ls, decode, parent).Ok? {
      ParentDescends(ls, decode, parent);
    }
  }

  /** One round of the migration loop, on values: the attempt made at this
      height continues the log; a failed validation or step ends it there,
      and otherwise the rest of it is made from the parent. */
  lemma DriveAdvance(ls: seq<Layer>, decode: Decoder, blk: Header, parent: Header, cfg: Migration, log: Log,
                     done: seq<Attempt>, made: seq<Attempt>, v: Outcome, e: Outcome, blk': Header, parent': Option<Header>)
    requires ParentsDescend(ls, decode) && Descends(ls, decode, parent) && parent.height != 0
    requires |done| <= |log.attempts| && done == log.attempts[..|done|]
    requires Drive(ls, decode, blk, parent, cfg) == Log(log.attempts[|done|..], log.end)
    requires made == if Selected(cfg.skip, parent.height) then [Attempted(cfg, parent.height, blk.parentStateRoot)] else []
    requires v == if made != [] && cfg.validating then cfg.validate(parent.height, made[0].root) else Pass
    requires v.Pass? ==>
      var g := GetParent(ls, decode, parent);
      && (g.Ok? ==> e == Pass && blk' == parent && parent' == Some(g.value))
      && (g.Err? ==> e == Fail(g.error))
    ensures |done + made| <= |log.attempts| && done + made == log.attempts[..|done + made|]
    ensures v.Fail? ==> Log(done + made, v) == log
    ensures v.Pass? && e.Fail? ==> Log(done + made, e) == log
    ensures v.Pass? && e.Pass? ==>
      && parent'.Some? && Descends(ls, decode, parent'.value)
      && Drive(ls, decode, blk', parent'.value, cfg) == Log(log.attempts[|done + made|..], log.end)
  {
    DriveAt(ls, decode, blk, parent, cfg, log, |done|);
    assert log.attempts[..|done| + |made|] == done + made;
    if |done + made| == |log.attempts| {
      assert done + made == log.attempts;
    }
  }

  /** The migration loop makes no attempt once the walk is done. */
  lemma DriveDone(ls: seq<Layer>, decode: Decoder, blk: Header, parent: Header, cfg: Migration)
    requires ParentsDescend(ls, decode) && Descends(ls, decode, parent) && parent.height == 0
    ensures Drive(ls, decode, blk, parent, cfg) == Log([], Pass)
  {
  }

  /** Reading through a stack of layers answers the same as through
      another. */
  ghost predicate SameReads(a: seq<Layer>, b: seq<Layer>) {
    forall k :: FirstGet(a, k) == FirstGet(b, k)
  }

  /** Stacks that answer reads alike agree on every header, on every walk
      start and on the whole migration loop. */
  lemma {:induction false} SameReadsSameDrive(a: seq<Layer>, b: seq<Layer>, decode: Decoder, blk: Header, parent: Header, cfg: Migration)
    requires SameReads(a, b)
    requires ParentsDescend(a, decode) && Descends(a, decode, parent)
    ensures ParentsDescend(b, decode) && Descends(b, decode, parent)
    ensures Drive(a, decode, blk, parent, cfg) == Drive(b, decode, blk, parent, cfg)
    decreases parent.height
  {
    SameReadsSameHeaders(a, b, decode);
    if parent.height != 0 {
      assert GetParent(a, decode, parent) == GetParent(b, decode, parent);
      match GetParent(a, decode, parent)
      case Err(e) =>
      case Ok(p) =>
        ParentDescends(a, decode, parent);
        SameReadsSameDrive(a, b, decode, parent, p, cfg);
    }
  }

  lemma SameReadsSameHeaders(a: seq<Layer>, b: seq<Layer>, decode: Decoder)
    requires SameReads(a, b)
    ensures forall k :: Fetch(a, decode, k) == Fetch(b, decode, k)
    ensures forall h :: GetParent(a, decode, h) == GetParent(b, decode, h)
    ensures forall tip :: Start(a, decode, tip) == Start(b, decode, tip)
    ensures ParentsDescend(a, decode) <==> ParentsDescend(b, decode)
  {
    assert forall k :: Fetch(a, decode, k) == Fetch(b, decode, k) by {
      forall k ensures Fetch(a, decode, k) == Fetch(b, decode, k) {
        assert FirstGet(a, k) == FirstGet(b, k);
      }
    }
    forall k ensures StoredDescends(a, decode, k) <==> StoredDescends(b, decode, k) {
      if Fetch(a, decode, k).Ok? {
        var h := Fetch(a, decode, k).value;
        assert GetParent(a, decode, h) == GetParent(b, decode, h);
      }
    }
  }

  /** Preloading into the empty buffer of a fresh store changes no read
      (Get, Has or GetSize): every copied block is the read layer's own block, which the read
      layer would have returned anyway. */
  lemma PreloadKeepsReads(read: Layer, write: Layer, reachable: set<Key>)
    requires Copyable(read, reachable)
    ensures SameReads([Preloaded(EmptyLayer, read, reachable), read, write], [EmptyLayer, read, write])
    ensures forall k ::
      && FirstHas([Preloaded(EmptyLayer, read, reachable), read, write], k) == FirstHas([EmptyLayer, read, write], k)
      && FirstGetSize([Preloaded(EmptyLayer, read, reachable), read, write], k) == FirstGetSize([EmptyLayer, read, write], k)
  {
    PreloadKeepsGet(read, write, reachable);
    var buf := Preloaded(EmptyLayer, read, reachable);
    forall k
      ensures FirstHas([buf, read, write], k) == FirstHas([EmptyLayer, read, write], k)
      ensures FirstGetSize([buf, read, write], k) == FirstGetSize([EmptyLayer, read, write], k)
    {
      SameGetSameQueries([buf, read, write], [EmptyLayer, read, write], k);
    }
  }

  lemma PreloadKeepsGet(read: Layer, write: Layer, reachable: set<Key>)
    requires Copyable(read, reachable)
    ensures SameReads([Preloaded(EmptyLayer, read, reachable), read, write], [EmptyLayer, read, write])
  {
    var buf := Preloaded(EmptyLayer, read, reachable);
    forall k ensures FirstGet([buf, read, write], k) == FirstGet([EmptyLayer, read, write], k) {
      var ls := [buf, read, write];
      var ls0 := [EmptyLayer, read, write];
      assert ls[1..] == ls0[1..] == [read, write];
      if k in buf.blocks {
        assert k in reachable && k in read.blocks && k !in read.broken;
        assert buf.blocks[k] == read.blocks[k];
        assert FirstGet(ls, k) == Ok(read.blocks[k]);
        assert FirstGet([read, write], k) == Ok(read.blocks[k]);
      }
    }
  }

  /** The migrate-chain command: needs a chain head; optionally preloads
      a state into the buffer first, ignoring how that goes; then runs the
      migration loop from the head. `preload` gives the state root and the
      keys its DAG copy visits. */
  method RunMigrateChain(present: bool, tip: Key, open: Result<Opened>, decode: Decoder,
                         preload: Option<(Key, set<Key>)>, cfg: Migration)
    returns (r: Outcome, attempts: seq<Attempt>)
    requires preload.Some? ==> preload.value.0 in preload.value.1
    requires open.Ok? ==> ParentsDescend([EmptyLayer, open.value.read, open.value.write], decode)
    ensures !present ==> r == Fail(NotEnoughArgs) && attempts == []
    ensures present && open.Err? ==> r == Fail(open.error) && attempts == []
    ensures present && open.Ok? ==>
      var ls := [EmptyLayer, open.value.read, open.value.write];
      var s := Start(ls, decode, tip);
      && (s.Err? ==> r == Fail(s.error) && attempts == [])
      && (s.Ok? ==>
            Descends(ls, decode, s.value.1)
            && Log(attempts, r) == Drive(ls, decode, s.value.0, s.value.1, cfg))
  {
    if !present {
      return Fail(NotEnoughArgs), [];
    }
    var chn := new Chain();
    if preload.Some? {
      var _ := chn.LoadToReadOnlyBuffer(preload.value.0, preload.value.1, open);
    }
    var it := chn.NewChainStateIterator(tip, open, decode);
    if open.Ok? {
      var bs := chn.cachedBs;
      var ls0 := [EmptyLayer, open.value.read, open.value.write];
      if bs.buffer == EmptyLayer {
        assert bs.Layers() == ls0;
      } else {
        PreloadKeepsReads(open.value.read, open.value.write, preload.value.1);
        assert bs.Layers() == [Preloaded(EmptyLayer, open.value.read, preload.value.1), open.value.read, open.value.write];
      }
      SameReadsSameHeaders(bs.Layers(), ls0, decode);
    }
    if it.Err? {
      return Fail(it.error), [];
    }
    var store := chn.LoadCborStore(open);
    assert store.Ok?;
    var iter := it.value;
    ghost var blk, parent := iter.currBlock, iter.currParent.value;
    StartDescends(iter.bs.Layers(), decode, tip);
    r, attempts := MigrateLoop(iter, cfg);
    SameReadsSameDrive(iter.bs.Layers(), [EmptyLayer, open.value.read, open.value.write], decode, blk, parent, cfg);
  }
  // ---------------------------------------------------------------------
  // info debts and info balances

  /** What a balance contributes to the total debt: its negation when it is
      negative, nothing otherwise. */
  function Debt(balance: int): (r: nat)
    ensures r > 0 <==> balance < 0
    ensures balance < 0 ==> r + balance == 0
  {
    if balance < 0 then -balance else 0
  }

  /** The total debt of the addresses `keys` of `available`. */
  ghost function Debts(available: map<Address, int>, keys: set<Address>): (r: int)
    requires keys <= available.Keys
    ensures r >= 0
    ensures r == 0 <==> forall a :: a in keys ==> available[a] >= 0
    decreases keys
  {
    if keys == {} then 0
    else
      var a :| a in keys;
      var r := Debt(available[a]) + Debts(available, keys - {a});
      assert forall b :: b in keys ==> b == a || b in keys - {a};
      r
  }

  /** The total debt does not depend on the order the addresses are
      visited in: any address can be taken first. */
  lemma {:induction false} DebtsTake(available: map<Address, int>, keys: set<Address>, a: Address)
    requires keys <= available.Keys && a in keys
    ensures Debts(available, keys) == Debt(available[a]) + Debts(available, keys - {a})
    decreases keys
  {
    var b :| b in keys && Debts(available, keys) == Debt(available[b]) + Debts(available, keys - {b});
    if b != a {
      DebtsTake(available, keys - {b}, a);
      DebtsTake(available, keys - {a}, b);
      assert keys - {b} - {a} == keys - {a} - {b};
    }
  }

  /** Sums the debts of the miners' available balances, visiting the
      addresses in an order the model leaves open. */
  method TotalDebt(available: map<Address, int>) returns (total: int)
    ensures total == Debts(available, available.Keys)
    ensures total >= 0
    ensures total == 0 <==> forall a :: a in available ==> available[a] >= 0
  {
    total := 0;
    var todo := available.Keys;
    while todo != {}
      invariant todo <= available.Keys
      invariant total + Debts(available, todo) == Debts(available, available.Keys)
      decreases |todo|
    {
      var a :| a in todo;
      var balance := available[a];
      if balance < 0 {
        var debt := -balance;
        total := total + debt;
      }
      DebtsTake(available, todo, a);
      todo := todo - {a};
    }
  }

  /** The available balance of a miner: its balance less its locked funds,
      pre-commit deposits and initial pledge, in exact integers. */
  function Available(bi: BalanceInfo): (r: int)
    ensures r + bi.lockedFunds + bi.preCommitDeposits + bi.initialPledge == bi.balance
  {
    bi.balance - (bi.lockedFunds + bi.preCommitDeposits + bi.initialPledge)
  }

  /** The balances report: for each miner, its locked funds and its
      available balance. */
  function BalanceReport(balances: map<Address, BalanceInfo>): (r: map<Address, (int, int)>)
    ensures r.Keys == balances.Keys
    ensures forall a :: a in r ==> r[a] == (balances[a].lockedFunds, Available(balances[a]))
  {
    map a | a in balances :: (balances[a].lockedFunds, Available(balances[a]))
  }

  /** A miner is short of funds in the report exactly when its liabilities
      exceed its balance. */
  lemma ReportShowsShortfall(balances: map<Address, BalanceInfo>, a: Address)
    requires a in balances
    ensures var bi := balances[a];
      BalanceReport(balances)[a].1 < 0 <==> bi.lockedFunds + bi.preCommitDeposits + bi.initialPledge > bi.balance
  {
  }
}
