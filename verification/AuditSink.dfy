/** The audit log of src/sidra_ai/api/audit.py against a kernel that may refuse any call. */
module AuditSink {
  import opened Wrappers

  type Byte = b: int | 0 <= b < 256

  type Fd = nat

  /** Why a call was refused. `NotOs` stands for any other `Exception` than an OSError; `Halt` for
      what is no `Exception` at all, an interrupt from the keyboard or an exit. */
  datatype Fault = NotFound | AlreadyThere | OtherOs | NotOs | Halt

  predicate IsOs(f: Fault) { f.NotFound? || f.AlreadyThere? || f.OtherOs? }

  /** What the kernel answers: a number (bytes written, or 0 for a file that is not regular). */
  datatype Reply = Did(n: int) | Refused(fault: Fault)

  /** What the kernel has done: a name opened in a directory (`None` is the process's own), a
      directory asked for, a file found to be regular or not, a file made its owner's alone. */
  datatype Deed =
    | Opened(parent: Option<Fd>, name: string, fd: Fd)
    | Asked(within: Fd, name: string)
    | Found(fd: Fd, regular: bool)
    | Tightened(fd: Fd)

  /** A kernel that answers as it likes. It never reuses a descriptor, and closing succeeds. */
  class Kernel {
    const replies: nat -> Reply
    var calls: nat
    var next: Fd
    var open: set<Fd>
    var file: seq<Byte>
    ghost var deeds: set<Deed>

    ghost predicate Valid() reads this {
      (forall fd :: fd in open ==> fd < next) && (forall d :: d in deeds && d.Opened? ==> d.fd < next)
    }

    constructor (replies: nat -> Reply, file: seq<Byte>)
      ensures Valid() && open == {} && this.file == file
    {
      this.replies, this.file := replies, file;
      calls, next, open, deeds := 0, 0, {}, {};
    }

    method Open(parent: Option<Fd>, name: string) returns (r: Result<Fd, Fault>)
      requires Valid() && (parent.Some? ==> parent.value in open)
      modifies this
      ensures Valid() && file == old(file)
      ensures r.Ok? ==> r.value !in old(open) && open == old(open) + {r.value} && next == r.value + 1 > old(next)
      ensures r.Ok? ==> deeds == old(deeds) + {Opened(parent, name, r.value)}
      ensures r.Err? ==> open == old(open) && deeds == old(deeds) && next == old(next)
    {
      var reply := replies(calls);
      calls := calls + 1;
      if reply.Refused? { return Err(reply.fault); }
      r := Ok(next);
      deeds := deeds + {Opened(parent, name, next)};
      open, next := open + {next}, next + 1;
    }

    method MakeDirectory(parent: Fd, name: string) returns (r: Result<int, Fault>)
      requires Valid() && parent in open
      modifies this`calls, this`deeds
      ensures Valid() && deeds == old(deeds) + {Asked(parent, name)}
    {
      var reply := replies(calls);
      calls := calls + 1;
      deeds := deeds + {Asked(parent, name)};
      return if reply.Did? then Ok(0) else Err(reply.fault);
    }

    method IsRegular(fd: Fd) returns (r: Result<bool, Fault>)
      requires Valid() && fd in open
      modifies this`calls, this`deeds
      ensures Valid() && deeds == old(deeds) + (if r.Ok? then {Found(fd, r.value)} else {})
    {
      var reply := replies(calls);
      calls := calls + 1;
      if reply.Refused? { return Err(reply.fault); }
      deeds := deeds + {Found(fd, reply.n != 0)};
      return Ok(reply.n != 0);
    }

    method Tighten(fd: Fd) returns (r: Result<int, Fault>)
      requires Valid() && fd in open
      modifies this`calls, this`deeds
      ensures Valid() && deeds == old(deeds) + (if r.Ok? then {Tightened(fd)} else {})
    {
      var reply := replies(calls);
      calls := calls + 1;
      if reply.Refused? { return Err(reply.fault); }
      deeds := deeds + {Tightened(fd)};
      return Ok(0);
    }

    method Close(fd: Fd)
      requires Valid() && fd in open
      modifies this`open
      ensures Valid() && open == old(open) - {fd}
    {
      open := open - {fd};
    }

    /** Appends as much as the kernel cares to, and says how much. */
    method Write(fd: Fd, data: seq<Byte>) returns (r: Result<int, Fault>)
      requires Valid() && fd in open
      modifies this`calls, this`file
      ensures Valid()
      ensures r.Ok? ==> r.value <= |data| && file == old(file) + data[..Positive(r.value)]
      ensures r.Err? ==> file == old(file)
    {
      var reply := replies(calls);
      calls := calls + 1;
      if reply.Refused? { return Err(reply.fault); }
      var n := if reply.n <= |data| then reply.n else |data|;
      file := file + data[..Positive(n)];
      return Ok(n);
    }
  }

  /** What a call leaves open. */
  ghost function Held(left: Option<Fd>): set<Fd> { if left.Some? then {left.value} else {} }

  function Positive(n: int): nat { if n > 0 then n else 0 }

  // --- the walk ------------------------------------------------------------

  /** Does this part name something? */
  predicate Names(part: string) { part != "" && part != "." }

  /** The parts below the root. */
  function Below(parts: seq<string>, absolute: bool): seq<string> {
    if absolute && parts != [] then parts[1..] else parts
  }

  lemma RootIsNoPart(parts: seq<string>)
    ensures Below(parts, false) == parts && (parts != [] ==> [parts[0]] + Below(parts, true) == parts)
  {
  }

  /** `_path_components`: refused when a part climbs out or none names anything; otherwise the
      parts that do, and no others. */
  function Components(parts: seq<string>, absolute: bool): (r: Result<seq<string>, Fault>)
    ensures r.Err? <==> ".." in parts || forall p :: p in Below(parts, absolute) ==> p == "" || p == "."
    ensures r.Err? ==> r.error == OtherOs
    ensures r.Ok? ==> r.value != [] && forall p :: p in r.value <==> p in Below(parts, absolute) && p != "" && p != "."
  {
    if ".." in parts then Err(OtherOs)
    else
      var named := Named(Below(parts, absolute));
      if named == [] then Err(OtherOs)
      else
        assert named[0] in named;
        Ok(named)
  }

  function Named(parts: seq<string>): (r: seq<string>)
    ensures forall p :: p in r <==> p in parts && Names(p)
  {
    if parts == [] then []
    else
      assert parts == [parts[0]] + parts[1..];
      if Names(parts[0]) then [parts[0]] + Named(parts[1..]) else Named(parts[1..])
  }

  /** They are kept in order and as often as they come: what is kept of two paths joined is what
      is kept of each, and one part is kept or not by itself. */
  lemma {:induction false} NamedInOrder(a: seq<string>, b: seq<string>)
    ensures Named(a + b) == Named(a) + Named(b)
    ensures |a| == 1 ==> Named(a) == if Names(a[0]) then a else []
  {
    if a == [] {
      assert a + b == b;
    } else {
      assert (a + b)[1..] == a[1..] + b;
      NamedInOrder(a[1..], b);
    }
  }

  /** A directory that is not there is asked for before it is given up on. */
  method OpenChildDirectory(k: Kernel, parent: Fd, component: string) returns (r: Result<Fd, Fault>)
    requires k.Valid() && parent in k.open
    modifies k
    ensures k.Valid() && k.file == old(k.file) && old(k.deeds) <= k.deeds && old(k.next) <= k.next
    ensures r.Ok? ==> r.value !in old(k.open) && k.open == old(k.open) + {r.value}
    ensures r.Ok? ==> Opened(Some(parent), component, r.value) in k.deeds && r.value >= old(k.next)
    ensures r.Err? ==> k.open == old(k.open)
    ensures r == Err(NotFound) ==> Asked(parent, component) in k.deeds
  {
    r := k.Open(Some(parent), component);
    if r == Err(NotFound) {
      var made := k.MakeDirectory(parent, component);
      if made.Err? && made.error != AlreadyThere {
        return Err(made.error);
      }
      r := k.Open(Some(parent), component);
    }
  }

  /** Each of the descriptors was opened in the one before, under its own component. */
  ghost predicate Chained(deeds: set<Deed>, base: string, components: seq<string>, fds: seq<Fd>) {
    && |fds| == |components| + 1
    && Opened(None, base, fds[0]) in deeds
    && forall i :: 0 <= i < |components| ==> Opened(Some(fds[i]), components[i], fds[i + 1]) in deeds
  }

  lemma ChainedLonger(deeds: set<Deed>, more: set<Deed>, base: string, components: seq<string>, component: string, fds: seq<Fd>, fd: Fd)
    requires Chained(deeds, base, components, fds) && deeds <= more
    requires Opened(Some(fds[|components|]), component, fd) in more
    ensures Chained(more, base, components + [component], fds + [fd])
  {
  }

  /** The directories, each opened through the one before, which is then closed. */
  method OpenParent(k: Kernel, base: string, components: seq<string>) returns (r: Result<Fd, Fault>, ghost fds: seq<Fd>)
    requires k.Valid()
    modifies k
    ensures k.Valid() && k.file == old(k.file) && old(k.deeds) <= k.deeds
    ensures r.Ok? ==> r.value !in old(k.open) && k.open == old(k.open) + {r.value}
    ensures r.Ok? ==> Chained(k.deeds, base, components, fds) && fds[|components|] == r.value
    ensures r.Err? ==> k.open == old(k.open)
  {
    fds := [];
    r := k.Open(None, base);
    if r.Err? { return; }
    fds := [r.value];
    for i := 0 to |components|
      invariant k.Valid() && k.file == old(k.file) && old(k.deeds) <= k.deeds
      invariant r.Ok? && r.value !in old(k.open) && k.open == old(k.open) + {r.value}
      invariant Chained(k.deeds, base, components[..i], fds) && fds[i] == r.value
    {
      ghost var before := k.deeds;
      var child := OpenChildDirectory(k, r.value, components[i]);
      k.Close(r.value);
      r := child;
      if r.Err? { return; }
      ChainedLonger(before, k.deeds, base, components[..i], components[i], fds, r.value);
      assert components[..i + 1] == components[..i] + [components[i]];
      fds := fds + [r.value];
    }
    assert components[..|components|] == components;
  }

  /** The last part of the walk: the file itself, kept only if it is a regular one and its owner's
      alone. Anything but a halt closes it again. */
  method OpenRegularFile(k: Kernel, parent: Fd, name: string) returns (r: Result<Fd, Fault>, ghost left: Option<Fd>)
    requires k.Valid() && parent in k.open
    modifies k
    ensures k.Valid() && k.file == old(k.file) && old(k.deeds) <= k.deeds
    ensures k.open == old(k.open) + Held(left) && Held(left) !! old(k.open)
    ensures if r.Ok? then left == Some(r.value) else left.Some? ==> r.error == Halt
    ensures r.Ok? ==> {Opened(Some(parent), name, r.value), Found(r.value, true), Tightened(r.value)} <= k.deeds
  {
    var file := k.Open(Some(parent), name);
    if file.Err? { return file, None; }
    var regular := k.IsRegular(file.value);
    var ready := Ok(0);
    if regular.Err? {
      ready := Err(regular.error);
    } else if !regular.value {
      ready := Err(OtherOs);
    } else {
      ready := k.Tighten(file.value);
    }
    if ready.Ok? { return file, Some(file.value); }
    if ready.error == Halt { return Err(Halt), Some(file.value); }
    k.Close(file.value);
    return Err(ready.error), None;
  }

  /** Whatever the kernel refuses, and wherever, the walk leaves exactly one descriptor more on
      success, and none otherwise, unless it is halted between opening the file and returning
      it, which no handler there catches. Close takes only an open one, so none is closed twice.
      On success every component was opened in the directory before it, the last one a regular
      file made its owner's alone. */
  method OpenRegularAppend(k: Kernel, parts: seq<string>, absolute: bool)
    returns (r: Result<Fd, Fault>, ghost left: Option<Fd>, ghost fds: seq<Fd>)
    requires k.Valid()
    modifies k
    ensures k.Valid() && k.file == old(k.file) && old(k.deeds) <= k.deeds
    ensures k.open == old(k.open) + Held(left) && Held(left) !! old(k.open)
    ensures if r.Ok? then left == Some(r.value) else left.Some? ==> r.error == Halt
    ensures Components(parts, absolute).Err? ==> r == Err(OtherOs)
    ensures r.Ok? ==>
              var components := Components(parts, absolute).value;
              && Chained(k.deeds, if absolute && parts != [] then parts[0] else ".", components, fds) && fds[|components|] == r.value
              && Found(r.value, true) in k.deeds && Tightened(r.value) in k.deeds
  {
    hide Components, Chained, Held;
    fds := [];
    var components := Components(parts, absolute);
    if components.Err? {
      NothingLeft();
      ComponentsFault(parts, absolute);
      return Err(components.error), None, [];
    }
    SomeComponent(parts, absolute);
    var base := if absolute && parts != [] then parts[0] else ".";
    r, left, fds := Walk(k, base, components.value);
  }

  lemma NothingLeft()
    ensures Held(None) == {}
  {
  }

  lemma ComponentsFault(parts: seq<string>, absolute: bool)
    ensures Components(parts, absolute).Err? ==> Components(parts, absolute).error == OtherOs
  {
  }

  lemma SomeComponent(parts: seq<string>, absolute: bool)
    ensures Components(parts, absolute).Ok? ==> Components(parts, absolute).value != []
  {
  }

  lemma ClosedAgain(before: set<Fd>, fd: Fd, left: Option<Fd>)
    requires fd !in before && Held(left) !! before + {fd}
    ensures before + {fd} + Held(left) - {fd} == before + Held(left)
  {
  }

  method Walk(k: Kernel, base: string, components: seq<string>)
    returns (r: Result<Fd, Fault>, ghost left: Option<Fd>, ghost fds: seq<Fd>)
    requires k.Valid() && components != []
    modifies k
    ensures k.Valid() && k.file == old(k.file) && old(k.deeds) <= k.deeds
    ensures k.open == old(k.open) + Held(left) && Held(left) !! old(k.open)
    ensures if r.Ok? then left == Some(r.value) else left.Some? ==> r.error == Halt
    ensures r.Ok? ==>
              && Chained(k.deeds, base, components, fds) && fds[|components|] == r.value
              && Found(r.value, true) in k.deeds && Tightened(r.value) in k.deeds
  {
    var last := |components| - 1;
    var parent;
    parent, fds := OpenParent(k, base, components[..last]);
    if parent.Err? { return parent, None, []; }
    ghost var before := k.deeds;
    r, left := OpenRegularFile(k, parent.value, components[last]);
    ClosedAgain(old(k.open), parent.value, left);
    k.Close(parent.value);
    if r.Ok? {
      ChainedLonger(before, k.deeds, base, components[..last], components[last], fds, r.value);
      assert components[..last] + [components[last]] == components;
      fds := fds + [r.value];
    }
  }

  // --- writing -------------------------------------------------------------

  /** The whole payload, in order, or a refusal part of the way through it. */
  method WriteAll(k: Kernel, fd: Fd, payload: seq<Byte>) returns (fault: Option<Fault>, ghost written: nat)
    requires k.Valid() && fd in k.open
    modifies k`calls, k`file
    ensures k.Valid() && written <= |payload| && k.file == old(k.file) + payload[..written]
    ensures fault.None? <==> written == |payload|
  {
    var remaining := payload;
    written := 0;
    while remaining != []
      invariant k.Valid() && fd in k.open
      invariant written <= |payload| && remaining == payload[written..]
      invariant k.file == old(k.file) + payload[..written]
      decreases |remaining|
    {
      var n := k.Write(fd, remaining);
      if n.Err? { return Some(n.error), written; }
      assert payload[..written] + remaining[..Positive(n.value)] == payload[..written + Positive(n.value)];
      if n.value <= 0 { return Some(OtherOs), written; }
      remaining := remaining[n.value..];
      written := written + n.value;
    }
    return None, written;
  }

  // --- the log -------------------------------------------------------------

  /** What became of one record: how much of its line reached the file, and what was raised. */
  datatype Entry = Entry(line: seq<Byte>, written: nat, fault: Option<Fault>)

  function Recorded(history: seq<Entry>): nat {
    if history == [] then 0
    else Recorded(history[..|history| - 1]) + (if history[|history| - 1].fault.None? then 1 else 0)
  }

  /** The records that raised an OSError: the ones the sink counts. */
  function Failed(history: seq<Entry>): nat {
    if history == [] then 0
    else
      var fault := history[|history| - 1].fault;
      Failed(history[..|history| - 1]) + (if fault.Some? && IsOs(fault.value) then 1 else 0)
  }

  function Halted(history: seq<Entry>): nat {
    if history == [] then 0
    else Halted(history[..|history| - 1]) + (if history[|history| - 1].fault == Some(Halt) then 1 else 0)
  }

  /** Everything the records put in the file. */
  function Appended(history: seq<Entry>): seq<Byte>
    requires forall e :: e in history ==> Kept(e)
  {
    if history == [] then []
    else
      var e := history[|history| - 1];
      assert Kept(e);
      Appended(history[..|history| - 1]) + e.line[..e.written]
  }

  /** The lines of the records that succeeded, whole. */
  function Lines(history: seq<Entry>): seq<Byte> {
    if history == [] then []
    else
      var e := history[|history| - 1];
      Lines(history[..|history| - 1]) + (if e.fault.None? then e.line else [])
  }

  ghost predicate Kept(e: Entry) {
    e.written <= |e.line| && (e.fault.None? ==> e.written == |e.line|)
  }

  lemma OneMore(history: seq<Entry>, e: Entry)
    requires Kept(e) && forall d :: d in history ==> Kept(d)
    ensures forall d :: d in history + [e] ==> Kept(d)
    ensures Recorded(history + [e]) == Recorded(history) + (if e.fault.None? then 1 else 0)
    ensures Failed(history + [e]) == Failed(history) + (if e.fault.Some? && IsOs(e.fault.value) then 1 else 0)
    ensures Halted(history + [e]) == Halted(history) + (if e.fault == Some(Halt) then 1 else 0)
    ensures Appended(history + [e]) == Appended(history) + e.line[..e.written]
  {
    assert (history + [e])[..|history|] == history;
  }

  lemma LeftOpen(held: set<Fd>, before: set<Fd>, leak: Option<Fd>)
    requires held <= before && Held(leak) !! before
    ensures |before + Held(leak) - held| == |before - held| + (if leak.Some? then 1 else 0)
  {
    assert before + Held(leak) - held == (before - held) + Held(leak);
  }

  datatype Durability = Durability(recorded: nat, failed: nat, lastFailure: Option<Fault>)

  class ApiAuditLog {
    const kernel: Kernel
    const parts: seq<string>
    const absolute: bool
    var recorded: nat
    var failed: nat
    var lastFailure: Option<Fault>
    ghost const base: seq<Byte>
    ghost const held: set<Fd>
    ghost var history: seq<Entry>

    /** The counters and the file say together what happened to every record, and only halted ones
        can have left a descriptor behind. */
    ghost predicate Valid() reads this, kernel {
      && kernel.Valid()
      && (forall e :: e in history ==> Kept(e))
      && recorded == Recorded(history) && failed == Failed(history)
      && kernel.file == base + Appended(history)
      && held <= kernel.open && |kernel.open - held| <= Halted(history)
    }

    constructor (kernel: Kernel, parts: seq<string>, absolute: bool)
      requires kernel.Valid()
      ensures Valid() && this.kernel == kernel && history == [] && base == kernel.file && held == kernel.open
    {
      this.kernel, this.parts, this.absolute := kernel, parts, absolute;
      recorded, failed, lastFailure := 0, 0, None;
      base, held, history := kernel.file, kernel.open, [];
    }

    /** The file opened, written and closed again. */
    method Attempt(line: seq<Byte>) returns (fault: Option<Fault>, ghost written: nat, ghost leak: Option<Fd>)
      requires kernel.Valid()
      modifies kernel
      ensures kernel.Valid() && written <= |line| && kernel.file == old(kernel.file) + line[..written]
      ensures fault.None? ==> written == |line|
      ensures kernel.open == old(kernel.open) + Held(leak) && Held(leak) !! old(kernel.open)
      ensures leak.Some? ==> fault == Some(Halt)
    {
      var fd, left, fds := OpenRegularAppend(kernel, parts, absolute);
      if fd.Err? { return Some(fd.error), 0, left; }
      fault, written := WriteAll(kernel, fd.value, line);
      kernel.Close(fd.value);
      leak := None;
    }

    /** Every record counts once, as kept or as failed, unless what it raised was no OSError. */
    method Record(line: seq<Byte>) returns (fault: Option<Fault>)
      requires Valid()
      modifies this, kernel
      ensures Valid()
      ensures fault != Some(Halt) ==> kernel.open == old(kernel.open)
      ensures old(kernel.open) <= kernel.open
      ensures |history| == |old(history)| + 1 && history[..|old(history)|] == old(history)
      ensures history[|old(history)|].line == line && history[|old(history)|].fault == fault
      ensures recorded == old(recorded) + (if fault.None? then 1 else 0)
      ensures failed == old(failed) + (if fault.Some? && IsOs(fault.value) then 1 else 0)
      ensures lastFailure == if fault.Some? && IsOs(fault.value) then fault else old(lastFailure)
    {
      hide Recorded, Failed, Halted, Appended, IsOs, Held;
      ghost var written, leak;
      fault, written, leak := Attempt(line);
      LeftOpen(held, old(kernel.open), leak);
      OneMore(history, Entry(line, written, fault));
      history := history + [Entry(line, written, fault)];
      if fault.None? {
        recorded := recorded + 1;
      } else if IsOs(fault.value) {
        failed := failed + 1;
        lastFailure := fault;
      }
    }

    method Snapshot() returns (d: Durability)
      requires Valid()
      ensures d == Durability(Recorded(history), Failed(history), lastFailure)
    {
      return Durability(recorded, failed, lastFailure);
    }
  }

  /** The file holds the old content and then whole records, and nothing else, exactly when no
      failed record left a part of its line behind. */
  lemma {:induction false} WholeRecordsExactly(history: seq<Entry>)
    requires forall e :: e in history ==> Kept(e)
    ensures |Appended(history)| >= |Lines(history)|
    ensures Appended(history) == Lines(history) <==>
            forall e :: e in history && e.fault.Some? ==> e.written == 0
  {
    if history == [] {
    } else {
      var before, e := history[..|history| - 1], history[|history| - 1];
      WholeRecordsExactly(before);
      assert history == before + [e];
      assert e in history;
      if e.fault.Some? && e.written > 0 {
        assert |Appended(history)| > |Lines(history)|;
      } else {
        var piece := e.line[..e.written];
        assert piece == if e.fault.None? then e.line else [];
        if Appended(history) == Lines(history) {
          assert (Appended(before) + piece)[..|Appended(before)|] == Appended(before);
          assert (Lines(before) + piece)[..|Lines(before)|] == Lines(before);
        }
      }
    }
  }

  /** The records that raised something no counter is for. */
  function Uncounted(history: seq<Entry>): nat {
    if history == [] then 0
    else Uncounted(history[..|history| - 1]) + (if history[|history| - 1].fault in {Some(NotOs), Some(Halt)} then 1 else 0)
  }

  /** No call is missed: kept, failed, and those that raised something else are all of them. */
  lemma {:induction false} EveryRecordCounts(history: seq<Entry>)
    ensures Recorded(history) + Failed(history) + Uncounted(history) == |history|
  {
    if history == [] {
    } else {
      EveryRecordCounts(history[..|history| - 1]);
    }
  }
}
