/** The Linux package's library closure: a worklist over the names that ELF files need. */
module Packaging {

  import opened Wrappers

  const SEED: string := "libsecret-1.so.0"

  const HOST: set<string> := {
    "libc.so.6", "libm.so.6", "libdl.so.2", "libpthread.so.0", "librt.so.1", "libresolv.so.2", "libutil.so.1",
    "ld-linux-x86-64.so.2", "ld-linux-aarch64.so.1",
    "libGL.so.1", "libEGL.so.1", "libGLX.so.0", "libOpenGL.so.0", "libGLdispatch.so.0"
  }

  /**
   * What the build machine holds: the ELF files of the bundle, the names already under `lib/`,
   * the loader cache, the files that exist, and the names each ELF file needs (none when its
   * inspection fails). A copied library needs what its source does.
   */
  datatype Machine = Machine(
    initial: seq<string>,
    present: set<string>,
    cache: map<string, string>,
    files: set<string>,
    needs: string -> Option<set<string>>)

  datatype PackError = Missing(name: string) | Uninspectable(path: string)

  predicate Provided(m: Machine, name: string) { name in HOST || name in m.present }

  predicate Available(m: Machine, name: string) { name in m.cache && m.cache[name] in m.files }

  // ------------------------------------------------------------ specification

  /** Needed by an ELF file of the bundle, or the one name needed from the start. */
  ghost predicate Root(m: Machine, name: string) {
    name == SEED || exists p :: p in m.initial && m.needs(p).Some? && name in m.needs(p).value
  }

  predicate Link(m: Machine, name: string, next: string) {
    && !Provided(m, name)
    && Available(m, name)
    && m.needs(m.cache[name]).Some?
    && next in m.needs(m.cache[name]).value
  }

  /** Names that lead from a root, each library bundled and needing the next. */
  ghost predicate Chain(m: Machine, c: seq<string>) {
    && c != []
    && Root(m, c[0])
    && (forall i :: 0 <= i < |c| - 1 ==> Link(m, c[i], c[i + 1]))
  }

  ghost predicate Wanted(m: Machine, name: string) {
    exists c :: Chain(m, c) && c[|c| - 1] == name
  }

  /** Every ELF file that belongs in the bundle can be found and inspected. */
  ghost predicate Complete(m: Machine) {
    && (forall p :: p in m.initial ==> m.needs(p).Some?)
    && (forall name :: Wanted(m, name) && !Provided(m, name) ==>
          Available(m, name) && m.needs(m.cache[name]).Some?)
  }

  /** The names that an inspected file needs are all provided or copied. */
  ghost predicate Satisfied(m: Machine, path: string, copied: map<string, string>) {
    m.needs(path).Some? && forall n :: n in m.needs(path).value ==> Provided(m, n) || n in copied
  }

  // ------------------------------------------------------------------- lemmas

  lemma RootIsWanted(m: Machine, name: string)
    requires Root(m, name)
    ensures Wanted(m, name)
  {
    assert Chain(m, [name]);
  }

  lemma LinkIsWanted(m: Machine, name: string, next: string)
    requires Wanted(m, name) && Link(m, name, next)
    ensures Wanted(m, next)
  {
    var c :| Chain(m, c) && c[|c| - 1] == name;
    var d := c + [next];
    forall i | 0 <= i < |d| - 1
      ensures Link(m, d[i], d[i + 1])
    {
      if i < |c| - 1 {
        assert d[i] == c[i] && d[i + 1] == c[i + 1];
      }
    }
    assert Chain(m, d);
  }

  /** A set of names that holds the roots and is closed under need holds every wanted name. */
  lemma {:induction false} ClosedHoldsWanted(m: Machine, visited: set<string>, c: seq<string>, i: nat)
    requires Chain(m, c) && i < |c|
    requires forall n :: Root(m, n) ==> n in visited
    requires forall n, next :: n in visited && Link(m, n, next) ==> next in visited
    ensures c[i] in visited
  {
    if i > 0 {
      ClosedHoldsWanted(m, visited, c, i - 1);
      assert Link(m, c[i - 1], c[i - 1 + 1]);
    }
  }

  // ----------------------------------------------------------------- worklist

  /** The names seen so far are wanted, and provided or copied from the cache. */
  ghost predicate Placed(m: Machine, visited: set<string>, copied: map<string, string>) {
    && (forall n :: n in visited ==> Wanted(m, n) && (Provided(m, n) || n in copied))
    && (forall n :: n in copied ==> n in visited && !Provided(m, n) && Available(m, n) && copied[n] == m.cache[n])
  }

  /** Every file of the bundle so far is still to inspect, or was and needs only names seen. */
  ghost predicate Tracked(m: Machine, pending: seq<string>, seen: set<string>, copied: map<string, string>) {
    && (forall p :: p in m.initial ==> p in pending || Inspected(m, p, seen))
    && (forall n :: n in copied ==> copied[n] in pending || Inspected(m, copied[n], seen))
    && (forall p :: p in pending ==> Belongs(m, p, copied))
  }

  ghost predicate Inspected(m: Machine, path: string, seen: set<string>) {
    m.needs(path).Some? && m.needs(path).value <= seen
  }

  ghost predicate Belongs(m: Machine, path: string, copied: map<string, string>) {
    path in m.initial || exists n :: n in copied && copied[n] == path
  }

  lemma NeedsAreWanted(m: Machine, path: string, visited: set<string>, copied: map<string, string>)
    requires Placed(m, visited, copied) && Belongs(m, path, copied) && m.needs(path).Some?
    ensures forall n :: n in m.needs(path).value ==> Wanted(m, n)
  {
    forall n | n in m.needs(path).value
      ensures Wanted(m, n)
    {
      if path in m.initial {
        RootIsWanted(m, n);
      } else {
        var l :| l in copied && copied[l] == path;
        assert Link(m, l, n);
        LinkIsWanted(m, l, n);
      }
    }
  }

  /** What the finished worklist means. */
  lemma Finished(m: Machine, visited: set<string>, copied: map<string, string>)
    requires Placed(m, visited, copied) && Tracked(m, [], visited, copied) && SEED in visited
    ensures forall n :: n in copied <==> Wanted(m, n) && !Provided(m, n)
    ensures Complete(m)
    ensures forall p :: p in m.initial ==> Satisfied(m, p, copied)
    ensures forall n :: n in copied ==> Satisfied(m, copied[n], copied)
    ensures Provided(m, SEED) || SEED in copied
  {
    forall n | Wanted(m, n)
      ensures n in visited
    {
      var c :| Chain(m, c) && c[|c| - 1] == n;
      ClosedHoldsWanted(m, visited, c, |c| - 1);
    }
  }

  /** Put one wanted name in place: leave it to the host, find it under `lib/`, or copy it. */
  method Place(m: Machine, name: string, pending: seq<string>, copied: map<string, string>)
    returns (ok: bool, pending': seq<string>, copied': map<string, string>)
    ensures ok ==>
      if Provided(m, name) || name in copied then pending' == pending && copied' == copied
      else Available(m, name) && pending' == pending + [m.cache[name]] && copied' == copied[name := m.cache[name]]
    ensures !ok ==> !Provided(m, name) && !Available(m, name)
  {
    ok, pending', copied' := true, pending, copied;
    if name in HOST {
      return;
    }
    if name in m.present || name in copied {
      return;
    }
    if name !in m.cache || m.cache[name] !in m.files {
      ok := false;
      return;
    }
    pending' := pending + [m.cache[name]];
    copied' := copied[name := m.cache[name]];
  }

  lemma PlacedOne(m: Machine, visited: set<string>, copied: map<string, string>, name: string)
    requires Placed(m, visited, copied) && name !in visited && Wanted(m, name)
    ensures Provided(m, name) ==> Placed(m, visited + {name}, copied)
    ensures !Provided(m, name) && Available(m, name) ==> Placed(m, visited + {name}, copied[name := m.cache[name]])
  {
    hide Wanted;
  }

  lemma TrackedCopy(m: Machine, pending: seq<string>, seen: set<string>, copied: map<string, string>, name: string, path: string)
    requires Tracked(m, pending, seen, copied) && name !in copied
    ensures Tracked(m, pending + [path], seen, copied[name := path])
  {
    var more, after := pending + [path], copied[name := path];
    forall p | p in more
      ensures Belongs(m, p, after)
    {
      if p in pending {
        if p !in m.initial {
          var n :| n in copied && copied[n] == p;
          assert n in after && after[n] == p;
        }
      } else {
        assert name in after && after[name] == p;
      }
    }
  }

  lemma TrackedPop(m: Machine, pending: seq<string>, seen: set<string>, copied: map<string, string>)
    requires pending != [] && Tracked(m, pending, seen, copied)
    ensures var path := pending[|pending| - 1];
      m.needs(path).Some? ==> Tracked(m, pending[..|pending| - 1], seen + m.needs(path).value, copied)
    ensures Belongs(m, pending[|pending| - 1], copied)
  {
    var path, rest := pending[|pending| - 1], pending[..|pending| - 1];
    assert pending == rest + [path];
    assert path in pending;
  }

  /** How much the worklist can still grow, and what is on it. */
  function Budget(m: Machine, visited: set<string>, pending: seq<string>): nat {
    |m.cache.Keys - visited| + |pending|
  }

  lemma BudgetKept(m: Machine, visited: set<string>, name: string)
    requires name !in visited
    ensures |m.cache.Keys - (visited + {name})| == |m.cache.Keys - visited| - if name in m.cache then 1 else 0
  {
    assert m.cache.Keys - (visited + {name}) == (m.cache.Keys - visited) - {name};
  }

  lemma BudgetPopped(m: Machine, visited: set<string>, pending: seq<string>)
    requires pending != []
    ensures Budget(m, visited, pending[..|pending| - 1]) < Budget(m, visited, pending)
  {
  }

  /** The loop over the names that are needed and not yet visited. */
  method PlaceAll(m: Machine, names: set<string>, visited0: set<string>, pending0: seq<string>, copied0: map<string, string>)
    returns (missing: Option<string>, visited: set<string>, pending: seq<string>, copied: map<string, string>)
    requires names !! visited0 && (forall n :: n in names ==> Wanted(m, n))
    requires Placed(m, visited0, copied0) && Tracked(m, pending0, visited0 + names, copied0)
    ensures missing.None? ==>
      && visited == visited0 + names
      && Placed(m, visited, copied) && Tracked(m, pending, visited, copied)
      && Budget(m, visited, pending) <= Budget(m, visited0, pending0)
    ensures missing.Some? ==>
      Wanted(m, missing.value) && !Provided(m, missing.value) && !Available(m, missing.value)
  {
    hide Wanted, Tracked, Provided, Available, Placed, Budget;
    missing, visited, pending, copied := None, visited0, pending0, copied0;
    var todo := names;
    ghost var seen := visited0 + names;
    while todo != {}
      invariant todo !! visited && visited + todo == seen
      invariant forall n :: n in todo ==> Wanted(m, n)
      invariant Placed(m, visited, copied) && Tracked(m, pending, seen, copied)
      invariant Budget(m, visited, pending) <= Budget(m, visited0, pending0)
      decreases todo
    {
      var name :| name in todo;
      Taken(visited, todo, name);
      var ok, pending', copied' := PlaceOne(m, name, visited, pending, seen, copied);
      if !ok {
        return Some(name), visited, pending, copied;
      }
      todo := todo - {name};
      visited, pending, copied := visited + {name}, pending', copied';
    }
    NoneLeft(visited, todo);
  }

  lemma Taken(visited: set<string>, todo: set<string>, name: string)
    requires name in todo && todo !! visited
    ensures (visited + {name}) + (todo - {name}) == visited + todo
    ensures (todo - {name}) !! (visited + {name})
  {
  }

  lemma NoneLeft(visited: set<string>, todo: set<string>)
    requires todo == {}
    ensures visited + todo == visited
  {
  }

  /** One name of that loop: marked visited, and put in place. */
  method PlaceOne(m: Machine, name: string, visited: set<string>, pending: seq<string>, ghost seen: set<string>,
                  copied: map<string, string>)
    returns (ok: bool, pending': seq<string>, copied': map<string, string>)
    requires name !in visited && Wanted(m, name)
    requires Placed(m, visited, copied) && Tracked(m, pending, seen, copied)
    ensures ok ==>
      && Placed(m, visited + {name}, copied') && Tracked(m, pending', seen, copied')
      && Budget(m, visited + {name}, pending') <= Budget(m, visited, pending)
    ensures !ok ==> !Provided(m, name) && !Available(m, name)
  {
    hide Wanted, Tracked, Provided, Available, Placed;
    PlacedOne(m, visited, copied, name);
    NotYetCopied(m, visited, copied, name);
    BudgetKept(m, visited, name);
    AvailableIsCached(m, name);
    ok, pending', copied' := Place(m, name, pending, copied);
    if ok && !Provided(m, name) {
      TrackedCopy(m, pending, seen, copied, name, m.cache[name]);
    }
  }

  lemma NotYetCopied(m: Machine, visited: set<string>, copied: map<string, string>, name: string)
    requires Placed(m, visited, copied) && name !in visited
    ensures name !in copied
  {
    hide Wanted;
  }

  lemma AvailableIsCached(m: Machine, name: string)
    ensures Available(m, name) ==> name in m.cache
  {
  }

  lemma TrackedAtFirst(m: Machine)
    ensures Tracked(m, m.initial, {SEED}, map[]) && Placed(m, {}, map[]) && Wanted(m, SEED)
  {
    RootIsWanted(m, SEED);
  }

  lemma Regrouped(a: set<string>, b: set<string>, c: set<string>)
    ensures (a + b) + c == a + (b + c)
    ensures a + b == a + (b - a)
    ensures a + {} == a
  {
  }

  /**
   * The whole worklist. It succeeds exactly when every library that belongs in the bundle can be
   * found and inspected; then it copies exactly those, and no need of any bundled file is open.
   */
  method BundleLibraries(m: Machine) returns (r: Result<map<string, string>, PackError>)
    ensures r.Ok? <==> Complete(m)
    ensures r.Ok? ==>
      var copied := r.value;
      && (forall n :: n in copied <==> Wanted(m, n) && !Provided(m, n))
      && (forall n :: n in copied ==> Available(m, n) && copied[n] == m.cache[n])
      && (forall p :: p in m.initial ==> Satisfied(m, p, copied))
      && (forall n :: n in copied ==> Satisfied(m, copied[n], copied))
      && (Provided(m, SEED) || SEED in copied)
    ensures r.Err? && r.error.Missing? ==>
      Wanted(m, r.error.name) && !Provided(m, r.error.name) && !Available(m, r.error.name)
    ensures r.Err? && r.error.Uninspectable? ==> m.needs(r.error.path).None?
  {
    hide Wanted, Tracked, Placed, Provided, Available, Satisfied, Complete, Budget;
    var pending, needed, visited, copied := m.initial, {SEED}, {}, map[];
    TrackedAtFirst(m);
    Regrouped({}, {SEED}, {});
    assert {SEED} == {} + {SEED};
    while pending != [] || needed != {}
      invariant Placed(m, visited, copied) && Tracked(m, pending, visited + needed, copied)
      invariant forall n :: n in needed ==> Wanted(m, n)
      invariant SEED in visited + needed
      decreases Budget(m, visited, pending), needed != {}
    {
      if pending != [] {
        var path := pending[|pending| - 1];
        TrackedPop(m, pending, visited + needed, copied);
        BudgetPopped(m, visited, pending);
        pending := pending[..|pending| - 1];
        if m.needs(path).None? {
          Incomplete(m, path, visited, copied);
          return Err(Uninspectable(path));
        }
        NeedsAreWanted(m, path, visited, copied);
        Regrouped(visited, needed, m.needs(path).value);
        needed := needed + m.needs(path).value;
      }
      Regrouped(visited, needed, {});
      var missing, visited', pending', copied' := PlaceAll(m, needed - visited, visited, pending, copied);
      if missing.Some? {
        MissingIsIncomplete(m, missing.value);
        return Err(Missing(missing.value));
      }
      visited, pending, copied := visited', pending', copied';
      needed := {};
      Regrouped(visited, needed, {});
    }
    Regrouped(visited, needed, {});
    Finished(m, visited, copied);
    CopiedFromCache(m, visited, copied);
    return Ok(copied);
  }

  lemma MissingIsIncomplete(m: Machine, name: string)
    requires Wanted(m, name) && !Provided(m, name) && !Available(m, name)
    ensures !Complete(m)
  {
    hide Wanted;
  }

  lemma Incomplete(m: Machine, path: string, visited: set<string>, copied: map<string, string>)
    requires Placed(m, visited, copied) && Belongs(m, path, copied) && m.needs(path).None?
    ensures !Complete(m)
  {
    hide Wanted;
    if path !in m.initial {
      var n :| n in copied && copied[n] == path;
      assert Wanted(m, n);
    }
  }

  lemma CopiedFromCache(m: Machine, visited: set<string>, copied: map<string, string>)
    requires Placed(m, visited, copied)
    ensures forall n :: n in copied ==> Available(m, n) && copied[n] == m.cache[n]
  {
    hide Wanted;
  }
}
