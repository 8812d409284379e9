/** The single-use nonce store of the Linux agent: exclusive create, write,
    remove on failure, under every interleaving of calls and crashes. */
module NonceStore {
  import opened Text

  /** Where one call of consumePersistentAgentNonce is. */
  datatype Stage =
    | Opening    // about to create the record file exclusively
    | Writing    // created it, about to write and sync it
    | Removing   // the write failed, about to remove the file
    | Started    // consumed: the plan body has started
    | Refused

  datatype Call = Call(nonce: string, stage: Stage)

  datatype Event =
    | Begin(id: nat, nonce: string, tokenId: string, digest: string)
    | Open(id: nat, ioError: bool)
    | Write(id: nat, ok: bool)
    | Remove(id: nat, ok: bool)
    | Crash(left: set<string>)

  /** Files are known by their path; `started` lists the nonces of the plan
      bodies that ever started, over the life of the store. */
  datatype Store = Store(files: set<string>, calls: map<nat, Call>, started: seq<string>)

  const FRESH := Store({}, map[], [])

  /** nonceRecordPath of the trimmed nonce. */
  function Path(hash: string -> string, nonce: string): string {
    hash(Trim(nonce))
  }

  predicate Blank(nonce: string, tokenId: string, digest: string) {
    Trim(nonce) == "" || Trim(tokenId) == "" || Trim(digest) == ""
  }

  /** One atomic step. A crash ends every call; files created but not yet synced
      may or may not be left, synced ones are. */
  function Next(hash: string -> string, s: Store, e: Event): Store {
    if e.Crash? then
      if e.left <= s.files && (forall i :: 0 <= i < |s.started| ==> Path(hash, s.started[i]) in e.left)
      then Store(e.left, map[], s.started) else s
    else if e.Begin? then
      if e.id in s.calls then s
      else
        s.(calls := s.calls[e.id := Call(e.nonce, if Blank(e.nonce, e.tokenId, e.digest) then Refused else Opening)])
    else if e.id !in s.calls then s
    else
      var call := s.calls[e.id];
      var path := Path(hash, call.nonce);
      match (e, call.stage)
      case (Open(_, ioError), Opening) =>
        if ioError || path in s.files then s.(calls := s.calls[e.id := call.(stage := Refused)])
        else s.(files := s.files + {path}, calls := s.calls[e.id := call.(stage := Writing)])
      case (Write(_, ok), Writing) =>
        if ok then s.(calls := s.calls[e.id := call.(stage := Started)], started := s.started + [call.nonce])
        else s.(calls := s.calls[e.id := call.(stage := Removing)])
      case (Remove(_, ok), Removing) =>
        s.(files := if ok then s.files - {path} else s.files, calls := s.calls[e.id := call.(stage := Refused)])
      case _ => s
  }

  function Run(hash: string -> string, s: Store, events: seq<Event>): Store
    decreases |events|
  {
    if events == [] then s else Run(hash, Next(hash, s, events[0]), events[1..])
  }

  ghost predicate Owns(s: Store, id: nat) {
    id in s.calls && (s.calls[id].stage == Writing || s.calls[id].stage == Removing)
  }

  /** A call that created its file owns it alone until it succeeds or removes it;
      the file of a started plan stays and nobody owns it. */
  ghost predicate Inv(hash: string -> string, s: Store) {
    && (forall id :: Owns(s, id) ==> Path(hash, s.calls[id].nonce) in s.files)
    && (forall a, b :: Owns(s, a) && Owns(s, b) && Path(hash, s.calls[a].nonce) == Path(hash, s.calls[b].nonce) ==> a == b)
    && (forall i :: 0 <= i < |s.started| ==> Path(hash, s.started[i]) in s.files)
    && (forall i, id :: 0 <= i < |s.started| && Owns(s, id) ==> Path(hash, s.started[i]) != Path(hash, s.calls[id].nonce))
    && (forall i, j :: 0 <= i < j < |s.started| ==> Path(hash, s.started[i]) != Path(hash, s.started[j]))
  }

  /** Only the event's own call moves, and it becomes an owner only by creating
      a file that was not there. */
  lemma OwnersMove(hash: string -> string, s: Store, e: Event, id: nat)
    requires Owns(Next(hash, s, e), id)
    ensures id in s.calls && Next(hash, s, e).calls[id].nonce == s.calls[id].nonce
    ensures Owns(s, id) || (!e.Crash? && id == e.id && Path(hash, Next(hash, s, e).calls[id].nonce) !in s.files
                            && Next(hash, s, e).files == s.files + {Path(hash, Next(hash, s, e).calls[id].nonce)}
                            && Next(hash, s, e).started == s.started)
  {
    hide Trim, Path;
  }

  lemma NextInv(hash: string -> string, s: Store, e: Event)
    requires Inv(hash, s)
    ensures Inv(hash, Next(hash, s, e))
  {
    hide Trim, Path, Blank;
    var s' := Next(hash, s, e);
    forall id | Owns(s', id) {
      OwnersMove(hash, s, e, id);
    }
    if e.Write? && s'.started != s.started {
      assert Owns(s, e.id) && s'.started == s.started + [s.calls[e.id].nonce];
    }
    if e.Remove? && s'.files != s.files {
      assert Owns(s, e.id) && s'.files == s.files - {Path(hash, s.calls[e.id].nonce)};
    }
  }

  lemma {:induction false} RunInv(hash: string -> string, s: Store, events: seq<Event>)
    requires Inv(hash, s)
    ensures Inv(hash, Run(hash, s, events))
    decreases |events|
  {
    if events != [] {
      NextInv(hash, s, events[0]);
      RunInv(hash, Next(hash, s, events[0]), events[1..]);
    }
  }

  /** At most one plan body ever starts per nonce, nonces that differ only in
      surrounding space counting as one. */
  lemma NonceUsedOnce(hash: string -> string, events: seq<Event>, i: nat, j: nat)
    requires i < j < |Run(hash, FRESH, events).started|
    ensures Trim(Run(hash, FRESH, events).started[i]) != Trim(Run(hash, FRESH, events).started[j])
  {
    RunInv(hash, FRESH, events);
    var s := Run(hash, FRESH, events);
    assert Path(hash, s.started[i]) != Path(hash, s.started[j]);
  }

  /** Once a nonce has started a plan, every later call with it is refused. */
  lemma StartedIsRefused(hash: string -> string, events: seq<Event>, i: nat, id: nat, ioError: bool)
    requires var s := Run(hash, FRESH, events);
             i < |s.started| && id in s.calls && s.calls[id].stage == Opening && Trim(s.calls[id].nonce) == Trim(s.started[i])
    ensures var s' := Next(hash, Run(hash, FRESH, events), Open(id, ioError)); s'.calls[id].stage == Refused
  {
    hide Trim, Run;
    RunInv(hash, FRESH, events);
    var s := Run(hash, FRESH, events);
    assert Path(hash, s.started[i]) in s.files;
  }

  /** The sequential code of one call, as steps of the machine. */
  class NonceDirectory {
    var files: set<string>

    constructor ()
      ensures files == {}
    {
      files := {};
    }

    /** The record file can be created: nothing is blank and it is not there. */
    predicate Creates(hash: string -> string, nonce: string, tokenId: string, digest: string)
      reads this
    {
      !Blank(nonce, tokenId, digest) && Path(hash, nonce) !in files
    }

    /** Consumes a nonce exactly when its record could be created and written. */
    method Consume(hash: string -> string, nonce: string, tokenId: string, digest: string, ioError: bool, writeOk: bool, removeOk: bool,
                   ghost id: nat, ghost s: Store)
      returns (consumed: bool, ghost events: seq<Event>)
      requires s.files == files && id !in s.calls
      modifies this
      ensures consumed <==> old(Creates(hash, nonce, tokenId, digest)) && !ioError && writeOk
      ensures files == if old(Creates(hash, nonce, tokenId, digest)) && !ioError && (writeOk || !removeOk)
                       then old(files) + {Path(hash, nonce)} else old(files)
      ensures var s' := Run(hash, s, events);
              && s'.files == files
              && s'.started == s.started + (if consumed then [nonce] else [])
              && s'.calls == s.calls[id := Call(nonce, if consumed then Started else Refused)]
    {
      hide Run, Trim, Path;
      RunNothing(hash, s);
      events := [] + [Begin(id, nonce, tokenId, digest)];
      RunMore(hash, s, [], Begin(id, nonce, tokenId, digest));
      if Trim(nonce) == "" || Trim(tokenId) == "" || Trim(digest) == "" { return false, events; }
      var path := Path(hash, nonce);
      RunMore(hash, s, events, Open(id, ioError));
      events := events + [Open(id, ioError)];
      if ioError || path in files { return false, events; }
      files := files + {path};
      RunMore(hash, s, events, Write(id, writeOk));
      events := events + [Write(id, writeOk)];
      if !writeOk {
        RunMore(hash, s, events, Remove(id, removeOk));
        events := events + [Remove(id, removeOk)];
        if removeOk { files := files - {path}; }
      }
      consumed := writeOk;
    }
  }

  lemma RunNothing(hash: string -> string, s: Store)
    ensures Run(hash, s, []) == s
  {
  }

  lemma {:induction false} RunMore(hash: string -> string, s: Store, events: seq<Event>, e: Event)
    ensures Run(hash, s, events + [e]) == Next(hash, Run(hash, s, events), e)
    decreases |events|
  {
    if events == [] {
      assert events + [e] == [e];
      assert [e][1..] == [];
    } else {
      RunMore(hash, Next(hash, s, events[0]), events[1..], e);
      assert (events + [e])[1..] == events[1..] + [e];
    }
  }
}
