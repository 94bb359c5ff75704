/** The USB adapter's handle lifecycle for a single caller, driven by one scan.

    Serial replies, open results, the clock and cancellation come from `*`: every outcome the operating system
    could produce is covered.  The ledger (handles handed out, handles given to closeSerialAsync, the baud rate last
    set on the line, commands sent and their replies) is history; the adapter itself is devicePath, baud, port and
    ready. */
module UsbAdapter {
  import opened Common
  import opened EchoStrip
  import opened Link
  import opened Pids
  import opened StatusMerge
  import opened Text

  /** What callers ask of an error: errors.Is(err, errStuckSerial), isPortDead(err), context errors, the rest.
      Wrapping with %w keeps the first three apart. */
  datatype Error = Stuck | PortDead | Cancelled | Other

  type Maybe = Option<Error>

  datatype Reply = Reply(text: string, err: Maybe)

  /** isPortDead goes by the error's text, so an adapter's complaint can sound like a dead port. */
  predicate SoundsDead(out: string) {
    Contains(Lower(out), "closed") || Contains(Lower(out), "disconnected") || Contains(Lower(out), "no such file")
  }

  /** A command that went out on the port: the text that came back up to the prompt, or why there was none. */
  datatype Outcome = Lost(err: Error) | Raw(text: string)

  datatype Exchange = Exchange(cmd: Query, outcome: Outcome) {
    /** What `command` returns for it. */
    function reply(): Reply {
      match outcome
      case Lost(err) => Reply("", Some(err))
      case Raw(text) =>
        var out := Cleaned(text, cmd);
        Reply(out, if !Complaint(out) then None else if SoundsDead(out) then Some(PortDead) else Some(Other))
    }

    function raw(): Option<string> {
      if outcome.Raw? then Some(outcome.text) else None
    }
  }

  /** One more exchange, with this command and this reply. */
  ghost predicate Sent(before: seq<Exchange>, after: seq<Exchange>, cmd: Query, r: Reply) {
    |after| == |before| + 1 && before <= after && after[|before|].cmd == cmd && after[|before|].reply() == r
  }

  datatype BusProtocol = BusProtocol(code: string, name: string)

  const BUS_PROTOCOLS: seq<BusProtocol> := [
    BusProtocol("6", "ISO 15765-4 CAN 11/500"),
    BusProtocol("7", "ISO 15765-4 CAN 29/500"),
    BusProtocol("8", "ISO 15765-4 CAN 11/250"),
    BusProtocol("9", "ISO 15765-4 CAN 29/250"),
    BusProtocol("0", "automatic")
  ]

  predicate LooksLikeELM(s: string) {
    var u := Upper(s);
    exists n | n in ["ELM", "STN", "OBDII", "OBD-II", "V1.", "V2.", "OK"] :: Contains(u, n)
  }

  function WithoutSpaces(s: string): string {
    if s == "" then "" else (if s[0] == ' ' then "" else [s[0]]) + WithoutSpaces(s[1..])
  }

  predicate Pid0100Supported(resp: string) {
    var u := Upper(WithoutSpaces(resp));
    u != "" && !Contains(u, "UNABLE") && !Contains(u, "ERROR") && !Contains(u, "NODATA") && Contains(u, "4100")
  }

  datatype Dtc = Dtc(code: string, status: Status, frame: Option<string>)

  datatype VehicleInfo = VehicleInfo(vin: string, proto: string)

  datatype ScanReturn =
    | ScanFailed(err: Error)
    | Scanned(vehicle: VehicleInfo, dtcs: seq<Dtc>, frames: map<string, string>, live: Option<Readings>,
              metrics: LinkMetrics)

  /** The live sample: commands in the order they are sent, and how each reply is decoded. */
  const PIDS: seq<(Query, Quantity)> := [
    ("010C", Rpm), ("010D", Whole), ("0104", Percent), ("0105", Temperature), ("010F", Temperature), ("0110", AirFlow),
    ("010B", Whole), ("0111", Percent), ("0106", Trim), ("0107", Trim), ("0108", Trim), ("0109", Trim),
    ("0114", Oxygen), ("0115", Oxygen), ("0142", Voltage)
  ]

  type Readings = map<string, real>

  /** What one live reply contributes. */
  function Reading(q: Quantity, r: Reply): Option<real> {
    if r.err.Some? || r.text == "" || Contains(Upper(r.text), "NO DATA") then None else Decode(q, r.text)
  }

  /** The first n live commands were sent, and the readings are their replies, decoded. */
  ghost predicate Sampled(e: seq<Exchange>, n: nat, snap: Readings) {
    && n <= |PIDS| && n <= |e|
    && (forall i | 0 <= i < n :: e[i].cmd == PIDS[i].0)
    && (forall i | 0 <= i < n :: PIDS[i].0 in snap <==> Reading(PIDS[i].1, e[i].reply()).Some?)
    && (forall i | 0 <= i < n :: PIDS[i].0 in snap ==> snap[PIDS[i].0] == Reading(PIDS[i].1, e[i].reply()).value)
    && (forall cmd | cmd in snap :: exists i :: 0 <= i < n && PIDS[i].0 == cmd)
  }

  ghost predicate SampledFrom(e: seq<Exchange>, snap: Readings) {
    exists n: nat :: n == |e| && Sampled(e, n, snap)
  }

  const CONFIGURE: seq<Query> := ["ATE0", "ATL0", "ATS0", "ATH0", "ATAL"]

  /** The last six commands set the adapter up: five that were answered, and the timeout, which may go unanswered. */
  ghost predicate Configured(e: seq<Exchange>) {
    && |e| >= 6 && e[|e| - 1].cmd == "ATSTFF"
    && forall i | 0 <= i < 5 :: e[|e| - 6 + i].cmd == CONFIGURE[i] && e[|e| - 6 + i].reply().err.None?
  }

  /** Some reply since `from` shows an ELM banner. */
  ghost predicate Answered(e: seq<Exchange>, from: nat) {
    exists i :: from <= i < |e| && LooksLikeELM(e[i].reply().text)
  }

  /** The first k protocols were tried in order, and each was refused: by the adapter, or by a reply to 0100 that does
      not show PID 00. */
  ghost predicate Refused(e: seq<Exchange>, k: nat)
    requires k <= |BUS_PROTOCOLS|
    decreases k
  {
    if k == 0 then e == []
    else
      var n, choice := |e|, "ATSP" + BUS_PROTOCOLS[k - 1].code;
      || (n >= 1 && e[n - 1].cmd == choice && e[n - 1].reply().err.Some? && Refused(e[..n - 1], k - 1))
      || (n >= 2 && e[n - 2].cmd == choice && e[n - 2].reply().err.None? && e[n - 1].cmd == "0100"
          && !Pid0100Supported(e[n - 1].reply().text) && Refused(e[..n - 2], k - 1))
  }

  lemma RefusedMore(e: seq<Exchange>, k: nat, more: seq<Exchange>)
    requires k < |BUS_PROTOCOLS| && Refused(e, k) && 1 <= |more| <= 2 && more[0].cmd == "ATSP" + BUS_PROTOCOLS[k].code
    requires if |more| == 1 then more[0].reply().err.Some?
             else more[0].reply().err.None? && more[1].cmd == "0100" && !Pid0100Supported(more[1].reply().text)
    ensures Refused(e + more, k + 1)
  {
    hide Pid0100Supported, Exchange.reply;
    assert (e + more)[..|e|] == e;
  }

  /** From position `from` on: the first k protocols refused, the next one selected, and PID 00 seen on it. */
  ghost predicate BusFoundFrom(e: seq<Exchange>, from: nat, k: nat, name: string) {
    && k < |BUS_PROTOCOLS| && name == BUS_PROTOCOLS[k].name && from + 2 <= |e|
    && e[|e| - 2].cmd == "ATSP" + BUS_PROTOCOLS[k].code && e[|e| - 2].reply().err.None?
    && e[|e| - 1].cmd == "0100" && Pid0100Supported(e[|e| - 1].reply().text)
    && Refused(e[from..|e| - 2], k)
  }

  /** The commands end with finding this bus, the first that shows PID 00. */
  ghost predicate BusFound(e: seq<Exchange>, name: string) {
    exists from: nat, k: nat :: BusFoundFrom(e, from, k, name)
  }

  /** The protocol reported is what the adapter describes, or else the name of the bus that was found. */
  ghost predicate BusNamed(e: seq<Exchange>, desc: string, proto: string) {
    exists name :: BusFound(e, name) && proto == ProtocolName(desc, name)
  }

  function Heed(e: Exchange): Option<string> {
    if e.reply().err.Some? then None else Some(e.reply().text)
  }

  /** The replies of consecutive commands, None where the command failed. */
  function Answers(e: seq<Exchange>): (replies: seq<Option<string>>)
    ensures |replies| == |e|
  {
    seq(|e|, i requires 0 <= i < |e| => Heed(e[i]))
  }

  function Unanswered(e: seq<Exchange>): nat {
    if e == [] then 0 else Unanswered(e[..|e| - 1]) + if e[|e| - 1].reply().err.Some? then 1 else 0
  }

  /** The three code queries, in order, and the codes listed from their replies. */
  ghost predicate CodesRead(e: seq<Exchange>, dtcs: seq<Dtc>) {
    && |e| == 3 && (forall k | 0 <= k < 3 :: e[k].cmd == SOURCES[k].0)
    && Lists(dtcs, After(Answers(e)))
  }

  /** One freeze-frame query per code, each code carrying its reply. */
  ghost predicate FramesRead(e: seq<Exchange>, dtcs: seq<Dtc>) {
    |e| == |dtcs| && forall i | 0 <= i < |e| :: e[i].cmd == "0200" && dtcs[i].frame == Heed(e[i])
  }

  /** What a finished scan reports, read off the commands it sent: protocol and VIN, then the code queries from
      position `at` on, then the freeze frames, then the live sample. */
  ghost predicate Reported(e: seq<Exchange>, at: nat, r: ScanReturn)
    requires r.Scanned?
  {
    var n := |r.dtcs|;
    && 2 <= at && at + 3 + n <= |e|
    && e[at - 2].cmd == "ATDP" && e[at - 1].cmd == "0902"
    && BusNamed(e[..at - 2], e[at - 2].reply().text, r.vehicle.proto)
    && (e[at - 1].reply().err.Some? ==> r.vehicle.vin == "")
    && CodesRead(e[at..at + 3], r.dtcs)
    && FramesRead(e[at + 3..at + 3 + n], r.dtcs)
    && r.metrics.failures == Unanswered(e[at + 3..at + 3 + n])
    && (r.live.Some? ==> SampledFrom(e[at + 3 + n..], r.live.value))
  }

  ghost predicate ReportedSince(e: seq<Exchange>, from: nat, r: ScanReturn)
    requires r.Scanned?
  {
    exists at: nat :: at >= from && Reported(e, at, r)
  }

  class USBAdapter {
    const devicePath: string
    var baud: int
    var port: Option<nat>
    var ready: bool

    // the outside world
    var cancelled: bool            // the caller's context
    var handles: nat               // serial.Open has returned handles 0 .. handles-1
    var pendingOpens: nat          // opens that were given up on and have not returned yet
    ghost var closes: map<nat, nat>  // handle -> times given to closeSerialAsync
    ghost var lineBaud: int        // last rate successfully set on the current port
    ghost var exchanges: seq<Exchange>

    ghost function Closes(h: nat): nat
      reads this`closes
    {
      if h in closes then closes[h] else 0
    }

    /** Every handle ever returned is either the current port or was handed to closeSerialAsync, exactly once. */
    ghost predicate Conserved()
      reads this
    {
      && (forall h: nat :: Closes(h) + (if port == Some(h) then 1 else 0) == if h < handles then 1 else 0)
      && (port.Some? ==> baud == lineBaud)
    }

    /** What holds between public calls. */
    ghost predicate Idle()
      reads this
    {
      Conserved() && (ready <==> port.Some?)
    }

    constructor (devicePath: string)
      ensures Idle() && port.None? && handles == 0 && this.devicePath == devicePath && baud == 38400
    {
      this.devicePath := devicePath;
      baud, port, ready := 38400, None, false;
      cancelled, handles, pendingOpens := false, 0, 0;
      closes, lineBaud, exchanges := map[], 0, [];
    }

    // -------------------------------------------------------------- the outside world

    /** Time passes: the context may be cancelled, and abandoned opens may deliver handles, which their goroutine
        closes on arrival. */
    method LetTimePass()
      requires Conserved()
      modifies this`cancelled, this`handles, this`pendingOpens, this`closes
      ensures Conserved() && handles >= old(handles) && (old(cancelled) ==> cancelled)
    {
      if * { cancelled := true; }
      var arrivals: nat := *;
      while arrivals > 0 && pendingOpens > 0
        invariant Conserved() && handles >= old(handles) && (old(cancelled) ==> cancelled)
        decreases pendingOpens
      {
        pendingOpens := pendingOpens - 1;
        if * {
          var h := handles;
          handles := handles + 1;
          CloseSerialAsync(Some(h));
        }
        arrivals := arrivals - 1;
      }
    }

    method CloseSerialAsync(p: Option<nat>)
      modifies this`closes
      ensures forall h: nat :: Closes(h) == old(Closes(h)) + if p == Some(h) then 1 else 0
    {
      if p.Some? { closes := closes[p.value := Closes(p.value) + 1]; }
    }

    // -------------------------------------------------------------- open and close

    /** Opens the device, or gives up after 12s and leaves the late handle to be closed.  The caller must not hold a
        handle: openPort overwrites the port. */
    method OpenPort(rate: int) returns (err: Maybe)
      requires Conserved() && port.None?
      modifies this`baud, this`port, this`cancelled, this`handles, this`pendingOpens, this`closes, this`lineBaud
      ensures Conserved()
      ensures err.None? ==> port.Some? && old(handles) <= port.value && baud == rate
      ensures err.Some? ==> port.None? && baud == old(baud)
    {
      LetTimePass();
      if * {  // the deadline or the context ended the wait first
        pendingOpens := pendingOpens + 1;
        return Some(if cancelled then Cancelled else Other);
      }
      if * {  // serial.Open failed; a missing device reads as a dead port
        var dead := *;
        return Some(if dead then PortDead else Other);
      }
      var h := handles;
      handles := handles + 1;
      port, baud := Some(h), rate;
      lineBaud := rate;
      return None;
    }

    method AbandonPort()
      requires Conserved()
      modifies this`port, this`ready, this`closes
      ensures Idle() && port.None?
    {
      var p := port;
      port, ready := None, false;
      CloseSerialAsync(p);
    }

    method SetBaud(rate: int) returns (err: Maybe)
      requires Conserved()
      modifies this`baud, this`lineBaud
      ensures Conserved()
      ensures err.None? ==> port.Some? && baud == rate
      ensures err.Some? ==> baud == old(baud)
    {
      if port.None? { return Some(Other); }
      if * {  // SetMode fails; the line keeps its rate
        var dead := *;
        return Some(if dead then PortDead else Other);
      }
      lineBaud := rate;
      baud := rate;
      return None;
    }

    /** One command round trip: it never changes the port, and without one it fails. */
    method Command(cmd: Query) returns (r: Reply)
      requires Conserved()
      modifies this`cancelled, this`handles, this`pendingOpens, this`closes, this`exchanges
      ensures Conserved() && (r.err.None? ==> port.Some?)
      ensures if port.Some? then Sent(old(exchanges), exchanges, cmd, r) else exchanges == old(exchanges)
    {
      LetTimePass();
      if port.None? { return Reply("", Some(Other)); }
      var outcome: Outcome := *;
      exchanges := exchanges + [Exchange(cmd, outcome)];
      match outcome {
        case Lost(err) => return Reply("", Some(err));
        case Raw(text) =>
          var out := Without(text, cmd);
          out := Without(out, ">");
          out := TrimSpace(out);
          var up := Upper(out);
          if Contains(up, "NO DATA") { return Reply(out, None); }
          if Contains(up, "UNABLE") || Contains(up, "ERROR") {
            return Reply(out, Some(if SoundsDead(out) then PortDead else Other));
          }
          return Reply(out, None);
      }
    }

    method Wake() returns (err: Maybe)
      requires Conserved()
      modifies this`cancelled, this`handles, this`pendingOpens, this`closes
      ensures Conserved() && (err.None? ==> port.Some?)
    {
      LetTimePass();
      if port.None? { return Some(Other); }
      return if cancelled then Some(Cancelled) else None;
    }

    method ConfigureELM() returns (err: Maybe)
      requires Conserved() && port.Some?
      modifies this`cancelled, this`handles, this`pendingOpens, this`closes, this`exchanges
      ensures Conserved() && old(exchanges) <= exchanges
      ensures err.None? ==> Configured(exchanges)
    {
      hide Exchange.reply, Configured;
      ghost var before, e := exchanges, [];
      for i := 0 to |CONFIGURE|
        invariant Conserved() && exchanges == before + e && |e| == i
        invariant forall k | 0 <= k < i :: e[k].cmd == CONFIGURE[k] && e[k].reply().err.None?
      {
        if cancelled { return Some(Cancelled); }
        var r := Command(CONFIGURE[i]);
        if r.err.Some? { return r.err; }
        e := e + [exchanges[|exchanges| - 1]];
      }
      var _ := Command("ATSTFF");
      ConfiguredBy(before, e, exchanges[|exchanges| - 1]);
      assert exchanges == before + e + [exchanges[|exchanges| - 1]];
      return None;
    }

    /** The old handle is given up before a new one is opened. */
    method ReopenAfterUSBReset() returns (err: Maybe)
      requires Conserved() && !ready
      modifies this
      ensures Conserved() && !ready && (err.None? ==> port.Some? && baud == old(baud)) && old(exchanges) <= exchanges
      ensures err.None? ==> Configured(exchanges) && Answered(exchanges, |old(exchanges)|)
    {
      hide LooksLikeELM;
      var rate := baud;
      AbandonPort();
      var polls: nat := *;
      while polls > 0  // until the device node reappears, three seconds pass or the context ends
        invariant Conserved() && !ready && port.None? && baud == rate && exchanges == old(exchanges)
      {
        LetTimePass();
        if cancelled { return Some(Cancelled); }
        polls := polls - 1;
      }
      if * { return Some(Other); }
      err := OpenPort(rate);
      if err.Some? { return; }
      err := Wake();
      if err.Some? { return; }
      var r := Command("ATI");
      if r.err.Some? { return r.err; }
      if !LooksLikeELM(r.text) { return Some(Other); }
      assert exchanges[|old(exchanges)|].reply() == r;
      err := ConfigureELM();
    }

    /** Up to three ATI, then a warm start, then ATZ, then a reopen when the port looks dead. */
    method InitELM() returns (err: Maybe)
      requires Conserved() && !ready
      modifies this
      ensures Conserved() && !ready && (err.None? ==> port.Some? && baud == old(baud)) && old(exchanges) <= exchanges
      ensures err.None? ==> Configured(exchanges) && Answered(exchanges, |old(exchanges)|)
    {
      hide LooksLikeELM, Configured, Exchange.reply;
      err := Wake();
      if err.Some? { return; }
      LetTimePass();
      if cancelled { return Some(Cancelled); }
      var id := Reply("", None);
      var attempt := 1;
      while attempt <= 3
        invariant 1 <= attempt <= 4 && Conserved() && port.Some? && port == old(port) && baud == old(baud) && !ready
        invariant old(exchanges) <= exchanges && (attempt > 1 ==> !LooksLikeELM(id.text))
      {
        id := Command("ATI");
        if id.err == Some(Stuck) { return id.err; }
        if LooksLikeELM(id.text) {
          assert exchanges[|exchanges| - 1].reply() == id;
          break;
        }
        if attempt < 3 {
          LetTimePass();
          if cancelled { return Some(Cancelled); }
          var _ := Wake();
        }
        attempt := attempt + 1;
      }
      if !LooksLikeELM(id.text) {
        var warm := Command("ATWS");
        if warm.err == Some(Stuck) { return warm.err; }
        if LooksLikeELM(warm.text) {
          assert exchanges[|exchanges| - 1].reply() == warm;
          id := Reply(warm.text, None);
        } else {
          var z := Command("ATZ");
          if z.err == Some(Stuck) { return z.err; }
          if LooksLikeELM(z.text) {
            assert exchanges[|exchanges| - 1].reply() == z;
            id := Reply(z.text, None);
          } else if z.err == Some(PortDead) || id.err == Some(PortDead) || warm.err == Some(PortDead) {
            err := ReopenAfterUSBReset();
            return;
          } else {
            return if z.err.Some? then z.err else if warm.err.Some? then warm.err else if id.err.Some? then id.err
                   else Some(Other);
          }
        }
      }
      if id.err.Some? { return id.err; }
      err := ConfigureELM();
    }

    /** The requested rate first, then 115200, 38400 and 9600, each once.  The list is never empty, so Open's
        fallback to 38400 is never used. */
    method BaudCandidates() returns (out: seq<int>)
      ensures 0 < |out| <= 4 && out[0] == (if baud > 0 then baud else 115200)
      ensures forall i, j | 0 <= i < j < |out| :: out[i] != out[j]
      ensures forall b :: b in out <==> b > 0 && b in [baud, 115200, 38400, 9600]
    {
      var wanted := [baud, 115200, 38400, 9600];
      var seen: set<int> := {};
      out := [];
      for k := 0 to |wanted|
        invariant seen == set b | b in out
        invariant forall i, j | 0 <= i < j < |out| :: out[i] != out[j]
        invariant forall b :: b in out <==> b > 0 && b in wanted[..k]
        invariant |out| <= k
        invariant out == [] ==> k == 0 || (k == 1 && baud <= 0)
        invariant out != [] ==> k >= 1 && out[0] == (if baud > 0 then baud else 115200)
      {
        if wanted[k] <= 0 || wanted[k] in seen { continue; }
        seen := seen + {wanted[k]};
        out := out + [wanted[k]];
      }
      assert wanted[..4] == wanted;
    }

    /** Either a ready adapter or no port at all; a handle obtained on the way to a failure is given up. */
    method Open() returns (err: Maybe)
      requires Idle()
      modifies this
      ensures Idle()
      ensures err.None? <==> port.Some?
      ensures old(port).Some? ==> port == old(port) && handles == old(handles) && exchanges == old(exchanges)
      ensures old(port).None? && err.None? ==> Configured(exchanges) && Answered(exchanges, |old(exchanges)|)
      ensures old(exchanges) <= exchanges
    {
      hide Configured, LooksLikeELM;
      if port.Some? { return None; }
      if devicePath == "" { return Some(Other); }
      var j2534: bool := *;
      if j2534 { return Some(Other); }
      var bauds := BaudCandidates();
      err := OpenPort(bauds[0]);
      if err.Some? { return; }
      var last: Maybe := None;
      for i := 0 to |bauds|
        invariant Conserved() && !ready && old(exchanges) <= exchanges
        invariant i == 0 ==> port.Some?
      {
        LetTimePass();
        if cancelled { AbandonPort(); return Some(Cancelled); }
        if i > 0 {
          last := SetBaud(bauds[i]);
          if last.Some? { continue; }
        }
        ghost var before := |exchanges|;
        err := InitELM();
        if err.Some? {
          last := err;
          if err == Some(Stuck) { AbandonPort(); return; }
          continue;
        }
        assert Answered(exchanges, before);
        ready := true;
        return None;
      }
      AbandonPort();
      err := Some(if last.Some? then last.value else Other);
    }

    /** Parks the adapter, then lets go of it. */
    method Close()
      requires Idle()
      modifies this
      ensures Idle() && port.None? && old(exchanges) <= exchanges
      ensures |exchanges| == |old(exchanges)| + (if old(port).Some? then 1 else 0)
      ensures old(port).Some? ==> exchanges[|old(exchanges)|].cmd == "ATWS"
    {
      ParkAdapter();
      AbandonPort();
    }

    method ParkAdapter()
      requires Conserved()
      modifies this`cancelled, this`handles, this`pendingOpens, this`closes, this`exchanges
      ensures Conserved() && old(exchanges) <= exchanges
      ensures |exchanges| == |old(exchanges)| + (if port.Some? then 1 else 0)
      ensures port.Some? ==> exchanges[|old(exchanges)|].cmd == "ATWS"
    {
      if port.None? { return; }
      var _ := Command("ATWS");
    }

    /** Between public calls a missing port means not ready, so the reconnect branch cannot run. */
    method EnsureOpen() returns (err: Maybe)
      requires Idle()
      modifies this
      ensures Idle() && (err.None? <==> port.Some?)
      ensures old(port).Some? ==> err.None? && port == old(port) && handles == old(handles) && baud == old(baud)
      ensures old(exchanges) <= exchanges && (old(port).Some? ==> exchanges == old(exchanges))
    {
      if port.Some? { return None; }
      if ready && baud > 0 {
        assert false;
      }
      err := Open();
    }

    // -------------------------------------------------------------- reading the car

    /** The bus it names is the first protocol on which the car shows PID 00; without one, every protocol was refused,
        or the context ended. */
    method FindBus() returns (name: string, err: Maybe)
      requires Conserved()
      modifies this`cancelled, this`handles, this`pendingOpens, this`closes, this`exchanges
      ensures Conserved() && old(exchanges) <= exchanges
      ensures err.None? && port.Some? ==> BusFound(exchanges, name)
      ensures err.Some? ==> (err == Some(Cancelled) && cancelled)
                            || (port.Some? ==> Refused(exchanges[|old(exchanges)|..], |BUS_PROTOCOLS|))
    {
      hide Pid0100Supported, Exchange.reply, Refused;
      name := "";
      ghost var before, e := exchanges, [];
      NoneRefused();
      for k := 0 to |BUS_PROTOCOLS|
        invariant Conserved() && before <= exchanges
        invariant port.Some? ==> exchanges == before + e && Refused(e, k)
      {
        if cancelled { return "", Some(Cancelled); }
        var chosen := Command("ATSP" + BUS_PROTOCOLS[k].code);
        if chosen.err.Some? {
          if port.Some? {
            RefusedMore(e, k, [exchanges[|exchanges| - 1]]);
            e := e + [exchanges[|exchanges| - 1]];
          }
          continue;
        }
        ghost var x := exchanges[|exchanges| - 1];
        var r := Command("0100");
        ghost var y := exchanges[|exchanges| - 1];
        if Pid0100Supported(r.text) {
          assert exchanges == before + e + [x, y] && exchanges[|before|..|exchanges| - 2] == e;
          assert BusFoundFrom(exchanges, |before|, k, BUS_PROTOCOLS[k].name);
          return BUS_PROTOCOLS[k].name, None;
        }
        RefusedMore(e, k, [x, y]);
        e := e + [x, y];
      }
      assert port.Some? ==> exchanges[|before|..] == e;
      err := Some(Other);
    }

    /** No command ever drops the port, so a VIN that cannot be read comes back as an empty VIN, not as an error. */
    method Identify() returns (info: VehicleInfo, err: Maybe)
      requires Idle()
      modifies this
      ensures Idle() && (err.None? ==> port.Some?) && old(exchanges) <= exchanges
      ensures old(port).Some? ==> port == old(port)
      ensures err.None? ==>
                |exchanges| >= 4 && exchanges[|exchanges| - 2].cmd == "ATDP" && exchanges[|exchanges| - 1].cmd == "0902"
      ensures err.None? ==> exchanges[|exchanges| - 1].reply().err.Some? ==> info.vin == ""
      ensures err.None? ==> BusNamed(exchanges[..|exchanges| - 2], exchanges[|exchanges| - 2].reply().text, info.proto)
    {
      hide BusFound, Exchange.reply, ProtocolName;
      info := VehicleInfo("", "");
      err := EnsureOpen();
      if err.Some? { return; }
      var proto;
      proto, err := FindBus();
      if err.Some? { return; }
      ghost var found := exchanges;
      var desc := Command("ATDP");
      var vin := Command("0902");
      if vin.err.Some? {
        if port.None? {
          assert false;
        }
      }
      assert |found| >= 2 by { BusTakesTwoCommands(found, proto); }
      assert exchanges[..|exchanges| - 2] == found;
      var window: string := *;  // the 17 characters extractVIN finds, or nothing
      info := VehicleInfo(if vin.err.Some? then "" else window, ProtocolName(desc.text, proto));
    }

    /** The three code queries in order, merged; a failed one is skipped. */
    method QuerySources() returns (seen: Seen)
      requires Conserved() && port.Some?
      modifies this`cancelled, this`handles, this`pendingOpens, this`closes, this`exchanges
      ensures Conserved() && |exchanges| == |old(exchanges)| + 3 && old(exchanges) <= exchanges
      ensures forall k | 0 <= k < 3 :: exchanges[|old(exchanges)|..][k].cmd == SOURCES[k].0
      ensures seen == After(Answers(exchanges[|old(exchanges)|..]))
    {
      hide Answers, After, Merged, Heard, Exchange.reply;
      ghost var before, e := exchanges, [];
      seen := map[];
      NoAnswers();
      for k := 0 to |SOURCES|
        invariant Conserved() && exchanges == before + e && |e| == k <= 3
        invariant forall j | 0 <= j < k :: e[j].cmd == SOURCES[j].0
        invariant seen == After(Answers(e))
      {
        var r := Command(SOURCES[k].0);
        ghost var x := exchanges[|exchanges| - 1];
        AnswersGrow(e, x);
        e := e + [x];
        if r.err.Some? { continue; }
        seen := MergeReply(seen, r.text, SOURCES[k].1);
      }
      assert exchanges[|before|..] == e;
    }

    /** Each code once, with its priority status. */
    method ReadDTCs() returns (dtcs: seq<Dtc>, err: Maybe)
      requires Idle()
      modifies this
      ensures Idle() && (old(port).Some? ==> err.None? && port == old(port) && |exchanges| == |old(exchanges)| + 3)
      ensures old(exchanges) <= exchanges
      ensures err.None? ==> |exchanges| >= 3 && CodesRead(exchanges[|exchanges| - 3..], dtcs)
                            && forall i | 0 <= i < |dtcs| :: dtcs[i].frame.None?
    {
      hide Answers, After, Lists, Exchange.reply;
      dtcs := [];
      err := EnsureOpen();
      if err.Some? { return; }
      var seen := QuerySources();
      dtcs := ListDtcs(seen);
    }

    method ReadFreezeFrame(code: string) returns (frame: string, err: Maybe)
      requires Idle()
      modifies this
      ensures Idle() && old(exchanges) <= exchanges
      ensures old(port).Some? ==> port == old(port) && Sent(old(exchanges), exchanges, "0200", Reply(frame, err))
    {
      frame := "";
      err := EnsureOpen();
      if err.Some? { return; }
      var r := Command("0200");
      return r.text, r.err;
    }

    /** One command per PID until the context ends; whatever does not decode is left out. */
    method ReadLiveSnapshot() returns (snap: Readings, err: Maybe)
      requires Idle()
      modifies this
      ensures Idle() && (old(port).Some? ==> port == old(port) && err.None?) && old(exchanges) <= exchanges
      ensures old(port).Some? ==> SampledFrom(exchanges[|old(exchanges)|..], snap)
                                  && (|exchanges| < |old(exchanges)| + |PIDS| ==> cancelled)
    {
      hide Contains, Decode, Sampled;
      snap := map[];
      err := EnsureOpen();
      if err.Some? { return; }
      ghost var before, e := exchanges, [];
      assert Sampled(e, 0, snap) by { NothingSampled(); }
      for i := 0 to |PIDS|
        invariant Idle() && port.Some? && (old(port).Some? ==> port == old(port))
        invariant exchanges == before + e && |e| == i && Sampled(e, i, snap)
      {
        if cancelled {
          assert exchanges[|before|..] == e;
          return;
        }
        ghost var e0, snap0 := e, snap;
        var r := Command(PIDS[i].0);
        ghost var x := exchanges[|exchanges| - 1];
        e := e + [x];
        SampleGrows(e0, i, snap0, x);
        if r.err.Some? || r.text == "" || Contains(Upper(r.text), "NO DATA") { continue; }
        var v := Decode(PIDS[i].1, r.text);
        if v.Some? { snap := snap[PIDS[i].0 := v.value]; }
      }
      assert exchanges[|before|..] == e;
    }

    /** Scanner.Scan: on every path, with or without an error, no port is left and every handle is accounted for; a
        scan that opened the adapter parks it; and a finished scan reports what the car answered. */
    method Scan(liveCapable: bool) returns (r: ScanReturn)
      requires Idle()
      modifies this
      ensures Idle() && port.None? && old(exchanges) <= exchanges
      ensures r.Scanned? ==> OfFinishedScan(r.metrics, |r.dtcs|, liveCapable) && r.metrics.failures <= |r.dtcs|
      ensures r.Scanned? ==>
                DistinctCodes(r.dtcs) && FramesAgree(r.dtcs, |r.dtcs|, r.frames) && (r.live.Some? <==> liveCapable)
      ensures r.Scanned? ==> |exchanges| > |old(exchanges)| && exchanges[|exchanges| - 1].cmd == "ATWS"
      ensures r.Scanned? ==> ReportedSince(exchanges[..|exchanges| - 1], |old(exchanges)|, r)
    {
      hide Reported, OfFinishedScan, FramesAgree, Configured, Answered, Exchange.reply;
      var err := Open();
      if err.Some? { return ScanFailed(err.value); }
      ghost var at: nat;
      r, at := ScanOpened(liveCapable);
      ghost var reported := exchanges;
      Close();
      assert exchanges[..|exchanges| - 1] == reported;
    }

    /** The body of Scan after the adapter opened; the deferred Close follows on every path.  With a port in hand
        nothing but a freeze frame can fail any more, so the two marked branches are dead for this adapter. */
    method ScanOpened(liveCapable: bool) returns (r: ScanReturn, ghost at: nat)
      requires Idle() && port.Some?
      modifies this
      ensures Idle() && port.Some? && old(exchanges) <= exchanges
      ensures r.Scanned? ==> OfFinishedScan(r.metrics, |r.dtcs|, liveCapable) && r.metrics.failures <= |r.dtcs|
      ensures r.Scanned? ==>
                DistinctCodes(r.dtcs) && FramesAgree(r.dtcs, |r.dtcs|, r.frames) && (r.live.Some? <==> liveCapable)
      ensures r.Scanned? ==> at >= |old(exchanges)| && Reported(exchanges, at, r)
    {
      hide CodesRead, FramesRead, Sampled, SampledFrom, Lists, FramesAgree, BusFound, BusNamed, Unanswered,
        Exchange.reply;
      at := 0;
      var m := LinkMetrics(0, 0, 0, 0.0);
      var info, err := Identify();
      m := m.(attempts := m.attempts + 1);
      if err.Some? { r := ScanFailed(err.value); return; }
      ghost var identified := exchanges;
      at := |exchanges|;
      var listed, rerr := ReadDTCs();
      m := m.(attempts := m.attempts + 1);
      if rerr.Some? {
        assert false;
      }
      ghost var coded := exchanges;
      assert DistinctCodes(listed) by { ListedAreDistinct(coded[at..], listed); }
      var dtcs, frames, ferr;
      dtcs, frames, m, ferr := ReadFrames(listed, m);
      if ferr.Some? { r := ScanFailed(ferr.value); return; }
      ghost var framed := exchanges;
      assert CodesRead(coded[at..], dtcs) by { FramesKeepCodes(coded[at..], listed, dtcs); }
      var live: Option<Readings> := None;
      if liveCapable {
        m := m.(attempts := m.attempts + 1);
        var snap, lerr := ReadLiveSnapshot();
        if lerr.Some? {
          assert false;
        }
        live := Some(snap);
      }
      m := m.(confidence := LinkConfidence(m));
      r := Scanned(info, dtcs, frames, live, m);
      assert exchanges[..at - 2] == identified[..at - 2];
      assert exchanges[at..at + 3] == coded[at..];
      assert exchanges[at + 3..at + 3 + |dtcs|] == framed[|coded|..];
      assert exchanges[at + 3 + |dtcs|..] == exchanges[|framed|..];
    }

    /** The freeze-frame loop: one attempt per code, stopped only by the context. */
    method ReadFrames(listed: seq<Dtc>, before: LinkMetrics)
      returns (dtcs: seq<Dtc>, frames: map<string, string>, m: LinkMetrics, err: Maybe)
      requires Idle() && port.Some? && DistinctCodes(listed) && forall i | 0 <= i < |listed| :: listed[i].frame.None?
      modifies this
      ensures Idle() && port.Some? && old(exchanges) <= exchanges
      ensures SameCodes(listed, dtcs)
      ensures err.None? ==> |exchanges| == |old(exchanges)| + |dtcs| && FramesRead(exchanges[|old(exchanges)|..], dtcs)
      ensures err.None? ==> m == before.(attempts := before.attempts + |dtcs|,
                                         failures := before.failures + Unanswered(exchanges[|old(exchanges)|..]))
      ensures err.None? ==> Unanswered(exchanges[|old(exchanges)|..]) <= |dtcs| && FramesAgree(dtcs, |dtcs|, frames)
    {
      hide FramesAgree, Unanswered, HasCode;
      dtcs, frames, m := listed, map[], before;
      FramesStart(dtcs);
      ghost var sent, e := exchanges, [];
      for i := 0 to |dtcs|
        invariant Idle() && port.Some? && exchanges == sent + e && |e| == i
        invariant |dtcs| == |listed| && SameCodes(listed, dtcs) && FramesAgree(dtcs, i, frames)
        invariant FramesRead(e, dtcs[..i]) && Unanswered(e) <= i
        invariant m == before.(attempts := before.attempts + i, failures := before.failures + Unanswered(e))
        invariant forall k | i <= k < |dtcs| :: dtcs[k] == listed[k]
      {
        if cancelled { err := Some(Cancelled); return; }
        m := m.(attempts := m.attempts + 1);
        ghost var dtcs0, frames0 := dtcs, frames;
        var frame, ferr := ReadFreezeFrame(dtcs[i].code);
        if ferr.Some? {
          m := m.(failures := m.failures + 1);
        } else {
          dtcs := dtcs[i := dtcs[i].(frame := Some(frame))];
          frames := frames[dtcs[i].code := frame];
        }
        FramesAdvance(dtcs0, i, frames0, dtcs, frames);
        ghost var x := exchanges[|exchanges| - 1];
        UnansweredGrows(e, x);
        e := e + [x];
      }
      assert dtcs[..|dtcs|] == dtcs && exchanges[|sent|..] == e;
      err := None;
    }
  }

  lemma ConfiguredBy(before: seq<Exchange>, e: seq<Exchange>, last: Exchange)
    requires |e| == 5 && forall k | 0 <= k < 5 :: e[k].cmd == CONFIGURE[k] && e[k].reply().err.None?
    requires last.cmd == "ATSTFF"
    ensures Configured(before + e + [last])
  {
    hide Exchange.reply;
    var all := before + e + [last];
    forall i | 0 <= i < 5 ensures all[|all| - 6 + i] == e[i] {}
  }

  function ProtocolName(desc: string, found: string): string {
    if desc == "" || Contains(Upper(desc), "AUTO") then found else desc
  }

  /** From the car's memories to the scan report, through the raw replies: a pair's code is reported exactly when some
      memory that told has the pair, with the status of the memory that counts most. */
  lemma ScanReportsStoredPairs(e: seq<Exchange>, at: nat, r: ScanReturn, memories: seq<seq<Codes.Pair>>, p: Codes.Pair)
    requires r.Scanned? && Reported(e, at, r) && |memories| == 3 && p != (0, 0)
    requires forall k | 0 <= k < 3 :: Tells(e[at..at + 3][k].raw(), SOURCES[k].0, SERVICES[k], memories[k])
    ensures HasCode(r.dtcs, |r.dtcs|, Codes.EncodeDTC(p)) <==> p in memories[0] || p in memories[1] || p in memories[2]
    ensures forall i | 0 <= i < |r.dtcs| && r.dtcs[i].code == Codes.EncodeDTC(p) ::
              r.dtcs[i].status
              == if p in memories[0] then Confirmed else if p in memories[2] then Permanent else Pending
  {
    hide After, Tells, Codes.EncodeDTC, FramesRead, BusNamed, SampledFrom, Unanswered, Cleaned, Complaint, SoundsDead;
    var codes := e[at..at + 3];
    var raws := [codes[0].raw(), codes[1].raw(), codes[2].raw()];
    forall k | 0 <= k < 3
      ensures Tells(raws[k], SOURCES[k].0, SERVICES[k], memories[k])
              && Heed(codes[k]) == Answer(raws[k], SOURCES[k].0)
    {
      assert raws[k] == codes[k].raw();
    }
    assert Answers(codes) == [Answer(raws[0], "03"), Answer(raws[1], "07"), Answer(raws[2], "0A")];
    MergedListShowsStoredPairs(raws, memories, p);
  }

  lemma NoneRefused()
    ensures Refused([], 0)
  {}

  lemma BusTakesTwoCommands(e: seq<Exchange>, name: string)
    requires BusFound(e, name)
    ensures |e| >= 2
  {}

  lemma NothingSampled()
    ensures Sampled([], 0, map[])
  {}

  lemma PidsDistinct(i: nat, j: nat)
    requires i < j < |PIDS|
    ensures PIDS[i].0 != PIDS[j].0
  {}

  lemma SampleGrows(e: seq<Exchange>, n: nat, snap: Readings, x: Exchange)
    requires Sampled(e, n, snap) && n == |e| < |PIDS| && x.cmd == PIDS[n].0
    ensures var v := Reading(PIDS[n].1, x.reply());
            Sampled(e + [x], n + 1, if v.Some? then snap[PIDS[n].0 := v.value] else snap)
  {
    hide Reading, Cleaned, Complaint, SoundsDead;
    forall i | 0 <= i < n ensures PIDS[i].0 != PIDS[n].0 { PidsDistinct(i, n); }
  }

  lemma NoAnswers()
    ensures After(Answers([])) == map[]
  {}

  lemma AnswersGrow(e: seq<Exchange>, x: Exchange)
    ensures Answers(e + [x]) == Answers(e) + [Heed(x)]
    ensures |e| < 3 ==>
              var seen := After(Answers(e));
              After(Answers(e + [x]))
              == if Heed(x).None? then seen else Merged(seen, Codes.DTCs(Heed(x).value), SOURCES[|e|].1)
  {
    hide Codes.DTCs, Cleaned, Complaint, SoundsDead;
    assert Answers(e + [x]) == Answers(e) + [Heed(x)];
    if |e| < 3 { AfterOneMore(Answers(e), Heed(x)); }
  }

  lemma UnansweredGrows(e: seq<Exchange>, x: Exchange)
    ensures Unanswered(e + [x]) == Unanswered(e) + if x.reply().err.Some? then 1 else 0
  {
    assert (e + [x])[..|e|] == e;
  }

  ghost predicate SameCodes(listed: seq<Dtc>, dtcs: seq<Dtc>) {
    |dtcs| == |listed| && forall i | 0 <= i < |dtcs| ::
        dtcs[i].code == listed[i].code && dtcs[i].status == listed[i].status
  }

  lemma ListedAreDistinct(e: seq<Exchange>, dtcs: seq<Dtc>)
    requires CodesRead(e, dtcs)
    ensures DistinctCodes(dtcs)
  {}

  /** Adding frames leaves the listing as it is. */
  lemma FramesKeepCodes(e: seq<Exchange>, listed: seq<Dtc>, dtcs: seq<Dtc>)
    requires CodesRead(e, listed) && SameCodes(listed, dtcs)
    ensures CodesRead(e, dtcs)
  {
    hide After;
    forall code | HasCode(listed, |listed|, code) ensures HasCode(dtcs, |dtcs|, code) {
      var i :| 0 <= i < |listed| && listed[i].code == code;
      assert dtcs[i].code == code;
    }
  }

  ghost predicate DistinctCodes(dtcs: seq<Dtc>) {
    forall i, j | 0 <= i < j < |dtcs| :: dtcs[i].code != dtcs[j].code
  }

  ghost predicate HasCode(dtcs: seq<Dtc>, n: nat, code: string)
    requires n <= |dtcs|
  {
    exists i :: 0 <= i < n && dtcs[i].code == code
  }

  /** The freeze-frame map holds the frames of the first n codes and nothing else. */
  ghost predicate FramesAgree(dtcs: seq<Dtc>, n: nat, frames: map<string, string>)
    requires n <= |dtcs|
  {
    && (forall i | 0 <= i < n :: dtcs[i].frame == if dtcs[i].code in frames then Some(frames[dtcs[i].code]) else None)
    && (forall code | code in frames :: HasCode(dtcs, n, code))
  }

  lemma FramesStart(dtcs: seq<Dtc>)
    requires forall i | 0 <= i < |dtcs| :: dtcs[i].frame.None?
    ensures FramesAgree(dtcs, 0, map[]) && Unanswered([]) == 0
  {}

  lemma FramesAdvance(dtcs0: seq<Dtc>, n: nat, frames0: map<string, string>, dtcs: seq<Dtc>,
                      frames: map<string, string>)
    requires n < |dtcs0| == |dtcs| && DistinctCodes(dtcs0) && FramesAgree(dtcs0, n, frames0) && dtcs0[n].frame.None?
    requires if dtcs == dtcs0 then frames == frames0
             else dtcs[n].frame.Some? && dtcs == dtcs0[n := dtcs0[n].(frame := dtcs[n].frame)]
                  && frames == frames0[dtcs0[n].code := dtcs[n].frame.value]
    ensures FramesAgree(dtcs, n + 1, frames)
  {
    forall code | code in frames ensures HasCode(dtcs, n + 1, code) {
      if code == dtcs0[n].code {
        assert dtcs[n].code == code;
      } else {
        assert HasCode(dtcs0, n, code);
        var i :| 0 <= i < n && dtcs0[i].code == code;
        assert dtcs[i].code == code;
      }
    }
    assert !HasCode(dtcs0, n, dtcs0[n].code);
  }

  /** A slice built from the seen map: every entry once, in whatever order the map is walked. */
  ghost predicate Lists(dtcs: seq<Dtc>, seen: Seen) {
    && (forall i | 0 <= i < |dtcs| :: dtcs[i].code in seen && dtcs[i].status == seen[dtcs[i].code])
    && DistinctCodes(dtcs)
    && (forall code | code in seen :: HasCode(dtcs, |dtcs|, code))
  }

  method ListDtcs(seen: Seen) returns (dtcs: seq<Dtc>)
    ensures Lists(dtcs, seen) && forall i | 0 <= i < |dtcs| :: dtcs[i].frame.None?
  {
    dtcs := [];
    var left := seen.Keys;
    while left != {}
      invariant left <= seen.Keys
      invariant forall i | 0 <= i < |dtcs| ::
                  dtcs[i].code in seen.Keys - left && dtcs[i].status == seen[dtcs[i].code] && dtcs[i].frame.None?
      invariant DistinctCodes(dtcs)
      invariant forall code | code in seen.Keys - left :: HasCode(dtcs, |dtcs|, code)
      decreases |left|
    {
      var code :| code in left;
      ghost var before := dtcs;
      dtcs := dtcs + [Dtc(code, seen[code], None)];
      left := left - {code};
      forall c | c in seen.Keys - left ensures HasCode(dtcs, |dtcs|, c) {
        if c == code {
          assert dtcs[|before|].code == c;
        } else {
          assert HasCode(before, |before|, c);
          var i :| 0 <= i < |before| && before[i].code == c;
          assert dtcs[i].code == c;
        }
      }
    }
  }
}
