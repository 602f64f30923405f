/** Exposing a verified partial without overwriting anything (core/resume.py, commit_partial_file). */
module Commit {
  import opened Common
  import opened Naming

  datatype Node = Node(inode: nat, content: Bytes)

  type Listing = map<string, Node>

  datatype OSError = OSError

  /** Where the copying fallback meets an OSError, if anywhere: while copying, at the exclusive open
      after so many that only found their name taken, or at the replacement. */
  datatype Fault = NoFault | CopyFails(written: nat) | OpenFails(after: nat) | ReplaceFails

  /** Whether the fallback gets through, given how often it came to open a destination. */
  predicate Survives(fault: Fault, opens: nat) {
    fault.NoFault? || (fault.OpenFails? && opens <= fault.after)
  }

  lemma UnionAssociates(a: Listing, b: Listing, c: Listing)
    ensures (a + b) + c == a + (b + c)
  {
  }

  /** `world` is the earlier directory plus what the others added; `temp` is in neither. */
  ghost predicate Others(base: Listing, theirs: Listing, world: Listing, temp: string) {
    world == base + theirs && theirs.Keys !! base.Keys && temp !in world
  }

  lemma OthersGrow(base: Listing, theirs: Listing, world: Listing, temp: string, extra: Listing)
    requires Others(base, theirs, world, temp) && extra.Keys !! world.Keys && temp !in extra
    ensures Others(base, theirs + extra, world + extra, temp)
  {
    UnionAssociates(base, theirs, extra);
  }

  lemma UnionKeepsEntry(a: Listing, c: Listing, k: string, v: Node)
    requires k !in c
    ensures a[k := v] + c == (a + c)[k := v]
  {
  }

  lemma PutThenDrop(a: Listing, k: string, v: Node)
    requires k !in a
    ensures a[k := v] - {k} == a
  {
  }

  lemma SwapPuts(a: Listing, j: string, u: Node, k: string, v: Node)
    requires j !in a && k !in a && j != k
    ensures a[j := u][k := v] - {k} == a[j := u]
    ensures a[j := u][k := v] - {j} == a[k := v]
    ensures (a[j := u][k := v] - {j})[k := u] == a[k := u]
  {
  }

  /** The receive directory together with the hidden partial. Other sessions may add names of
      their own between any two steps: the k-th pause adds the still free names of script[k]. */
  class Directory {
    var names: Listing
    var partial: Option<Node>
    var nextInode: nat
    var script: seq<Listing>
    ghost var theirs: Listing

    constructor (names: Listing, partial: Node, nextInode: nat, script: seq<Listing>)
      ensures this.names == names && this.partial == Some(partial) && this.script == script
      ensures this.nextInode == nextInode && theirs == map[]
    {
      this.names, this.partial, this.nextInode, this.script := names, Some(partial), nextInode, script;
      theirs := map[];
    }

    method Pause(reserved: string) returns (ghost extra: Listing)
      modifies this`names, this`script, this`theirs
      ensures extra.Keys !! old(names).Keys && reserved !in extra
      ensures names == old(names) + extra && theirs == old(theirs) + extra
      ensures extra == map[] || |script| < |old(script)|
      ensures |script| <= |old(script)|
    {
      extra := map[];
      if script != [] {
        var added := script[0] - (names.Keys + {reserved});
        extra := added;
        names, theirs, script := names + added, theirs + added, script[1..];
      }
    }

    /** One commit. `temp` is the fresh hidden name of the fallback. On success exactly one name is
        ours: the smallest candidate not taken by others, holding the partial's content; on an
        error nothing of ours is left. No earlier entry, and none of the others', has changed. */
    method CommitPartial(name: string, temp: string, linkWorks: bool, fault: Fault)
      returns (r: Result<string, OSError>, ghost index: nat, ghost world: Listing, opens: nat)
      requires partial.Some? && theirs == map[] && temp !in names
      requires forall i: nat :: Candidate(name, i) != temp
      modifies this
      ensures Others(old(names), theirs, world, temp)
      ensures r.Ok? <==> linkWorks || Survives(fault, opens)
      ensures r.Ok? && !linkWorks ==> opens > 0
      ensures r.Err? ==> names == world && partial == old(partial)
      ensures r.Ok? ==> partial.None? && r.value !in world && r.value in names
      ensures r.Ok? ==>
                names[r.value].content == old(partial).value.content && names == world[r.value := names[r.value]]
      ensures r.Ok? ==> r.value == Candidate(name, index) && TakenBelow(world.Keys, name, index)
    {
      if linkWorks {
        opens := 0;
        r, index, world := LinkPartial(name, temp);
      } else {
        r, index, world, opens := CopyPartial(name, temp, fault);
      }
    }

    method LinkPartial(name: string, temp: string)
      returns (r: Result<string, OSError>, ghost index: nat, ghost world: Listing)
      requires partial.Some? && theirs == map[] && temp !in names
      modifies this
      ensures Others(old(names), theirs, world, temp)
      ensures r.Ok? && partial.None? && r.value !in world
      ensures names == world[r.value := old(partial).value]
      ensures r.value == Candidate(name, index) && TakenBelow(world.Keys, name, index)
    {
      world := names;
      while true
        invariant names == world && partial == old(partial) && Others(old(names), theirs, world, temp)
        decreases |script|
      {
        var destination, i := ResolveCollision(names.Keys, name);
        ghost var before := theirs;
        ghost var extra := Pause(temp);
        OthersGrow(old(names), before, world, temp, extra);
        world := world + extra;
        if destination !in names {
          names, partial := names[destination := partial.value], None;
          return Ok(destination), i, world;
        }
      }
    }

    /** Reserve `destination` exclusively, then replace our own reservation by the copy. */
    method ReserveAndReplace(destination: string, temp: string, replaceFails: bool, ghost world: Listing)
      returns (ok: bool, ghost extra: Listing)
      requires temp in names && temp !in world && names == world[temp := names[temp]]
      requires destination !in names
      modifies this`names, this`nextInode, this`script, this`theirs
      ensures ok == !replaceFails && theirs == old(theirs) + extra
      ensures extra.Keys !! world.Keys && temp !in extra && destination !in extra
      ensures names == if ok then (world + extra)[destination := old(names)[temp]] else world + extra
    {
      ghost var copy := names[temp];
      var reservation := Node(nextInode, []);
      names, nextInode := names[destination := reservation], nextInode + 1;
      extra := Pause(temp);
      UnionKeepsEntry(world[temp := copy], extra, destination, reservation);
      UnionKeepsEntry(world, extra, temp, copy);
      SwapPuts(world + extra, temp, copy, destination, reservation);
      PutThenDrop(world + extra, temp, copy);
      if names[destination].inode != reservation.inode || replaceFails {
        if names[destination].inode == reservation.inode { names := names - {destination}; }
        names := names - {temp};
        return false, extra;
      }
      names := (names - {temp})[destination := names[temp]];
      return true, extra;
    }

    method CopyPartial(name: string, temp: string, fault: Fault)
      returns (r: Result<string, OSError>, ghost index: nat, ghost world: Listing, opens: nat)
      requires partial.Some? && theirs == map[] && temp !in names
      requires forall i: nat :: Candidate(name, i) != temp
      modifies this
      ensures Others(old(names), theirs, world, temp)
      ensures r.Ok? <==> Survives(fault, opens)
      ensures fault.OpenFails? ==> opens <= fault.after + 1
      ensures r.Ok? ==> opens > 0
      ensures r.Err? ==> names == world && partial == old(partial)
      ensures r.Ok? ==> partial.None? && r.value !in world && r.value in names
      ensures r.Ok? ==>
                names[r.value].content == old(partial).value.content && names == world[r.value := names[r.value]]
      ensures r.Ok? ==> r.value == Candidate(name, index) && TakenBelow(world.Keys, name, index)
    {
      var content := partial.value.content;
      if fault.CopyFails? {
        var torn := Node(nextInode, content[..Min(fault.written, |content|)]);
        PutThenDrop(names, temp, torn);
        names := names[temp := torn];
        names := names - {temp};
        return Err(OSError), 0, names, 0;
      }
      world := names;
      names, nextInode := names[temp := Node(nextInode, content)], nextInode + 1;
      var placed: Option<string>;
      placed, index, world, opens := PlaceCopy(name, temp, fault, world);
      if placed.None? { return Err(OSError), index, world, opens; }
      partial := None;
      r := Ok(placed.value);
    }

    /** Looks for a free name until the exclusive open finds one, or fails for another reason. */
    method OpenExclusively(name: string, temp: string, fault: Fault, ghost start: Listing)
      returns (destination: Option<string>, ghost index: nat, ghost world: Listing, opens: nat)
      requires temp in names && temp !in start && names == start[temp := names[temp]] && theirs == map[]
      modifies this`names, this`script, this`theirs
      ensures Others(start, theirs, world, temp) && names == world[temp := old(names)[temp]]
      ensures destination.Some? <==> (fault.OpenFails? ==> opens <= fault.after)
      ensures opens > 0 && (fault.OpenFails? ==> opens <= fault.after + 1)
      ensures destination.Some? ==> destination.value !in names && destination.value == Candidate(name, index)
      ensures destination.Some? ==> TakenBelow(names.Keys, name, index)
    {
      world, opens := start, 0;
      ghost var copy := names[temp];
      while true
        invariant Others(start, theirs, world, temp) && names == world[temp := copy]
        invariant fault.OpenFails? ==> opens <= fault.after
        decreases |script|
      {
        var found, i := ResolveCollision(names.Keys, name);
        ghost var before := theirs;
        ghost var extra := Pause(temp);
        UnionKeepsEntry(world, extra, temp, copy);
        OthersGrow(start, before, world, temp, extra);
        world, opens := world + extra, opens + 1;
        if fault.OpenFails? && opens > fault.after { return None, i, world, opens; }
        if found !in names { return Some(found), i, world, opens; }
      }
    }

    method PlaceCopy(name: string, temp: string, fault: Fault, ghost start: Listing)
      returns (placed: Option<string>, ghost index: nat, ghost world: Listing, opens: nat)
      requires !fault.CopyFails?
      requires temp in names && temp !in start && names == start[temp := names[temp]] && theirs == map[]
      requires forall i: nat :: Candidate(name, i) != temp
      modifies this`names, this`nextInode, this`script, this`theirs
      ensures Others(start, theirs, world, temp)
      ensures placed.Some? <==> Survives(fault, opens)
      ensures opens > 0 && (fault.OpenFails? ==> opens <= fault.after + 1)
      ensures placed.None? ==> names == world
      ensures placed.Some? ==> placed.value !in world && names == world[placed.value := old(names)[temp]]
      ensures placed.Some? ==> placed.value == Candidate(name, index) && TakenBelow(world.Keys, name, index)
    {
      ghost var copy := names[temp];
      placed, index, world, opens := OpenExclusively(name, temp, fault, start);
      if placed.None? {
        PutThenDrop(world, temp, copy);
        names := names - {temp};
        return;
      }
      TakenWithout(world, temp, copy, name, index);
      ghost var before := theirs;
      var ok;
      ghost var extra;
      ok, extra := ReserveAndReplace(placed.value, temp, fault.ReplaceFails?, world);
      OthersGrow(start, before, world, temp, extra);
      world := world + extra;
      if !ok { placed := None; }
    }
  }

  /** The hidden temporary file is no candidate, so it takes none. */
  lemma TakenWithout(world: Listing, temp: string, copy: Node, name: string, index: nat)
    requires TakenBelow(world[temp := copy].Keys, name, index) && forall i: nat :: Candidate(name, i) != temp
    ensures TakenBelow(world.Keys, name, index)
  {
  }
}
