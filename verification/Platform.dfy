/**
 The operating system and the TLS library as the C programs see them: sockets and SSL objects
 that must be released once, a monotone clock, and calls whose results are not determined. Every
 call that can take time is logged with the clock when it began and ended.
 */
module Platform {
  import opened CText

  const UINT64 := 0x1_0000_0000_0000_0000

  /** The sockets and SSL objects a program holds at some moment. */
  datatype Held = Held(sockets: set<int>, ssl: set<int>)

  /** A call into the system or the library, with its outcome. */
  datatype What =
    | Resolve | OpenSocket(created: bool) | Connect(connected: bool) | Send(accepted: bool) | Receive(answer: string)
    | NewSsl(made: bool) | Handshake(agreed: bool) | Write(text: string, written: bool) | Read(chunk: string)
    | Shutdown(bytesIn: nat, bytesOut: nat)

  datatype Call = Call(what: What, began: int, ended: int)

  /** All of these calls began and ended between two moments. */
  ghost predicate During(calls: seq<Call>, from: int, to: int) {
    forall i :: 0 <= i < |calls| ==> from <= calls[i].began <= calls[i].ended <= to
  }

  lemma DuringConcat(a: seq<Call>, b: seq<Call>, from: int, middle: int, to: int)
    requires During(a, from, middle) && During(b, middle, to) && from <= middle <= to
    ensures During(a + b, from, to)
  {
    assert forall i :: 0 <= i < |a + b| ==> (a + b)[i] == if i < |a| then a[i] else b[i - |a|];
  }

  lemma DuringLonger(calls: seq<Call>, from: int, to: int, from': int, to': int)
    requires During(calls, from, to) && from' <= from && to <= to'
    ensures During(calls, from', to')
  {
  }

  class Kernel {
    /** Sockets and SSL objects not yet released. */
    var open: set<int>
    var ssl: set<int>
    /** What the peer of each socket has received. */
    var sent: map<int, string>
    /** The reading of the monotone clock, in microseconds. */
    var now: int
    /** The byte counters below the SSL object in use. */
    var bytesIn: nat
    var bytesOut: nat
    /** What was held besides when each socket was opened. */
    ghost var heldAt: map<int, Held>
    /** The calls so far, and the host names looked up by them. */
    ghost var calls: seq<Call>
    ghost var resolved: seq<string>

    ghost predicate Valid()
      reads this
    {
      0 < now < UINT64 && open <= sent.Keys && bytesIn < UINT64 && bytesOut < UINT64
    }

    method Now() returns (t: int)
      requires Valid()
      modifies this`now
      ensures Valid() && old(now) <= t == now
    {
      var step: int := *;
      if step > 0 && now + step < UINT64 { now := now + step; }
      t := now;
    }

    /** Lets time pass in a call and logs it. */
    method Spend(ghost what: What) returns (ghost call: Call)
      requires Valid()
      modifies this`now, this`calls
      ensures Valid() && old(now) <= call.began <= call.ended == now && call.what == what
      ensures calls == old(calls) + [call]
    {
      ghost var began := Now();
      var ended := Now();
      call := Call(what, began, ended);
      calls := calls + [call];
    }

    /** `getaddrinfo`. */
    method LookUp(host: string) returns (ghost call: Call)
      requires Valid()
      modifies this`now, this`calls, this`resolved
      ensures Valid() && old(now) <= call.began <= call.ended == now && call.what == Resolve
      ensures calls == old(calls) + [call] && resolved == old(resolved) + [host]
    {
      call := Spend(Resolve);
      resolved := resolved + [host];
    }

    /** `socket`: a new descriptor, or -1. */
    method Socket() returns (fd: int, ghost call: Call)
      requires Valid()
      modifies this`now, this`calls, this`open, this`sent, this`heldAt
      ensures Valid() && old(now) <= call.began <= call.ended == now && call.what == OpenSocket(fd >= 0)
      ensures calls == old(calls) + [call]
      ensures if fd < 0 then open == old(open) && sent == old(sent) && heldAt == old(heldAt)
              else fd !in old(open) && open == old(open) + {fd} && sent == old(sent)[fd := ""] &&
                   heldAt == old(heldAt)[fd := Held(old(open), ssl)]
    {
      fd := *;
      if fd < 0 || fd in open { fd := -1; }
      call := Spend(OpenSocket(fd >= 0));
      if fd < 0 { return; }
      heldAt := heldAt[fd := Held(open, ssl)];
      open, sent := open + {fd}, sent[fd := ""];
    }

    method Connect(fd: int) returns (connected: bool, ghost call: Call)
      requires Valid() && fd in open
      modifies this`now, this`calls
      ensures Valid() && old(now) <= call.began <= call.ended == now && call.what == What.Connect(connected)
      ensures calls == old(calls) + [call]
    {
      connected := *;
      call := Spend(What.Connect(connected));
    }

    /** A descriptor may be closed only while it is open. */
    method Close(fd: int)
      requires Valid() && fd in open
      modifies this`open
      ensures Valid() && open == old(open) - {fd}
    {
      open := open - {fd};
    }

    /** `send`: any positive number of the bytes offered, or a failure. */
    method Send(fd: int, data: string, from: nat, count: nat) returns (result: int, ghost call: Call)
      requires Valid() && fd in open && from + count <= |data|
      modifies this`now, this`calls, this`sent
      ensures Valid() && old(now) <= call.began <= call.ended == now && call.what == What.Send(result > 0)
      ensures calls == old(calls) + [call] && result <= count
      ensures sent == if result <= 0 then old(sent)
                      else old(sent)[fd := old(sent)[fd] + data[from..from + result]]
    {
      result := *;
      if result > count { result := count; }
      call := Spend(What.Send(result > 0));
      if result > 0 { sent := sent[fd := sent[fd] + data[from..from + result]]; }
    }

    /** `recv`: up to `size` bytes, none of them when the peer has closed or the call fails. */
    method Receive(fd: int, size: nat) returns (result: int, text: string, ghost call: Call)
      requires Valid() && fd in open
      modifies this`now, this`calls
      ensures Valid() && old(now) <= call.began <= call.ended == now && call.what == What.Receive(text)
      ensures calls == old(calls) + [call]
      ensures result <= size && |text| == if result > 0 then result else 0
    {
      result := *;
      text := *;
      if |text| > size { text := text[..size]; }
      if |text| > 0 { result := |text|; } else if result > 0 { result := 0; }
      call := Spend(What.Receive(text));
    }

    /** `SSL_new`: a new object, or NULL as -1. */
    method SslNew() returns (handle: int, ghost call: Call)
      requires Valid()
      modifies this`now, this`calls, this`ssl
      ensures Valid() && old(now) <= call.began <= call.ended == now && call.what == NewSsl(handle >= 0)
      ensures calls == old(calls) + [call]
      ensures if handle < 0 then ssl == old(ssl) else handle !in old(ssl) && ssl == old(ssl) + {handle}
    {
      handle := *;
      if handle < 0 || handle in ssl { handle := -1; }
      call := Spend(NewSsl(handle >= 0));
      if handle >= 0 { ssl := ssl + {handle}; }
    }

    /** Bytes go to and fro under a TLS call. */
    method Traffic()
      requires Valid()
      modifies this`bytesIn, this`bytesOut
      ensures Valid()
    {
      bytesIn := *;
      bytesOut := *;
      bytesIn, bytesOut := bytesIn % UINT64, bytesOut % UINT64;
    }

    /** `SSL_connect` and `SSL_accept`. */
    method Handshake() returns (agreed: bool, ghost call: Call)
      requires Valid()
      modifies this`now, this`calls, this`bytesIn, this`bytesOut
      ensures Valid() && old(now) <= call.began <= call.ended == now && call.what == What.Handshake(agreed)
      ensures calls == old(calls) + [call]
    {
      agreed := *;
      Traffic();
      call := Spend(What.Handshake(agreed));
    }

    /** `SSL_write`: the whole text or a failure. */
    method SslWrite(text: string) returns (result: int, ghost call: Call)
      requires Valid()
      modifies this`now, this`calls, this`bytesIn, this`bytesOut
      ensures Valid() && old(now) <= call.began <= call.ended == now && call.what == Write(text, result > 0)
      ensures calls == old(calls) + [call]
    {
      result := *;
      Traffic();
      call := Spend(Write(text, result > 0));
    }

    /** `SSL_read`, with what it delivers. */
    method SslRead(chunk: string) returns (ghost call: Call)
      requires Valid()
      modifies this`now, this`calls, this`bytesIn, this`bytesOut
      ensures Valid() && old(now) <= call.began <= call.ended == now && call.what == Read(chunk)
      ensures calls == old(calls) + [call]
    {
      Traffic();
      call := Spend(Read(chunk));
    }

    /** `BIO_number_read`. */
    method BytesRead() returns (n: nat)
      ensures n == bytesIn
    {
      n := bytesIn;
    }

    /** `BIO_number_written`. */
    method BytesWritten() returns (n: nat)
      ensures n == bytesOut
    {
      n := bytesOut;
    }

    /** `SSL_shutdown`, which itself sends something; logged with the counters before it. */
    method SslShutdown() returns (ghost call: Call)
      requires Valid()
      modifies this`now, this`calls, this`bytesIn, this`bytesOut
      ensures Valid() && old(now) <= call.began <= call.ended == now
      ensures call.what == Shutdown(old(bytesIn), old(bytesOut)) && calls == old(calls) + [call]
    {
      call := Spend(Shutdown(bytesIn, bytesOut));
      Traffic();
    }

    /** An SSL object may be freed only while it is live. */
    method SslFree(handle: int)
      requires Valid() && handle in ssl
      modifies this`ssl
      ensures Valid() && ssl == old(ssl) - {handle}
    {
      ssl := ssl - {handle};
    }
  }

  /** `a - b` of two unsigned 64-bit clock readings. */
  function Minus(a: int, b: int): int {
    (a - b) % UINT64
  }

  /** From one moment to another no peer has received anything: each entry is empty or was there before. */
  ghost predicate Silent(before: map<int, string>, after: map<int, string>) {
    forall fd :: fd in after ==> after[fd] == "" || (fd in before && before[fd] == after[fd])
  }

  lemma SilentThroughout(a: map<int, string>, b: map<int, string>, c: map<int, string>)
    requires Silent(a, b) && Silent(b, c)
    ensures Silent(a, c)
  {
  }

  lemma SilentAtFirst(sent: map<int, string>)
    ensures Silent(sent, sent)
  {
  }

  /** The sockets that were open have received no more than before. */
  ghost predicate Kept(open: set<int>, before: map<int, string>, after: map<int, string>) {
    forall fd :: fd in open && fd in before ==> fd in after && after[fd] == before[fd]
  }

  lemma KeptAtFirst(open: set<int>, sent: map<int, string>)
    ensures Kept(open, sent, sent)
  {
  }

  lemma KeptThroughout(open: set<int>, a: map<int, string>, b: map<int, string>, c: map<int, string>)
    requires Kept(open, a, b) && Kept(open, b, c)
    ensures Kept(open, a, c)
  {
  }

  /** Besides what was held, exactly the returned socket is open, and nothing has been sent on it. */
  ghost predicate Opened(fd: int, held: Held, open: set<int>, sent: map<int, string>, heldAt: map<int, Held>) {
    if fd < 0 then open == held.sockets
    else
      fd !in held.sockets && open == held.sockets + {fd} && fd in sent && sent[fd] == "" &&
      fd in heldAt && heldAt[fd] == held
  }

  lemma NothingOpened(fd: int, held: Held, open: set<int>, sent: map<int, string>, heldAt: map<int, Held>)
    requires fd < 0
    ensures open == held.sockets <==> Opened(fd, held, open, sent, heldAt)
  {
  }

  // ---- Connecting ----

  /** One look-up and then n addresses tried in vain: no socket for it, or none that would connect. */
  ghost predicate Dialling(dial: seq<Call>, n: nat) {
    var k := |dial|;
    if n == 0 then k == 1 && dial[0].what == Resolve
    else
      (k >= 1 && dial[k - 1].what == OpenSocket(false) && Dialling(dial[..k - 1], n - 1)) ||
      (k >= 2 && dial[k - 2].what == OpenSocket(true) && dial[k - 1].what == Connect(false) &&
        Dialling(dial[..k - 2], n - 1))
  }

  /** Fewer addresses than there are have been tried in vain. */
  ghost predicate TriedFewer(dial: seq<Call>, candidates: int) {
    exists n: nat :: n < candidates && Dialling(dial, n)
  }

  /** One address tried: no socket for it, or a socket and an attempt to connect it. */
  predicate IsAttempt(attempt: seq<Call>, connected: bool) {
    (|attempt| == 1 && attempt[0].what == OpenSocket(false) && !connected) ||
    (|attempt| == 2 && attempt[0].what == OpenSocket(true) && attempt[1].what == Connect(connected))
  }

  /** The addresses tried in vain, and then one that connects if that was reached before they ran out. */
  ghost predicate Dialled(dial: seq<Call>, candidates: int, connected: bool) {
    var k := |dial|;
    if !connected then Dialling(dial, if candidates < 0 then 0 else candidates)
    else k >= 2 && IsAttempt(dial[k - 2..], true) && TriedFewer(dial[..k - 2], candidates)
  }

  lemma OneMoreTried(dial: seq<Call>, n: nat, attempt: seq<Call>)
    requires Dialling(dial, n) && IsAttempt(attempt, false)
    ensures Dialling(dial + attempt, n + 1)
  {
    assert (dial + attempt)[..|dial|] == dial;
    assert attempt[0] == (dial + attempt)[|dial|];
    assert attempt[|attempt| - 1] == (dial + attempt)[|dial + attempt| - 1];
  }

  lemma OneConnected(dial: seq<Call>, n: nat, candidates: int, attempt: seq<Call>)
    requires Dialling(dial, n) && n < candidates && IsAttempt(attempt, true)
    ensures Dialled(dial + attempt, candidates, true)
  {
    hide Dialling;
    assert (dial + attempt)[..|dial|] == dial && (dial + attempt)[|dial|..] == attempt;
  }

  /** What the caller's error buffer holds when no connection was made. */
  function LookUpError(reason: CString, size: nat): (error: CString)
    requires size > 0
    ensures |error| < size && Printed("getaddrinfo: ", size) <= error
  {
    Printed(Joined("getaddrinfo: ", reason), size)
  }

  function ConnectError(reason: CString, size: nat): (error: CString)
    requires size > 0
    ensures |error| < size && Printed("connect: ", size) <= error
  {
    Printed(Joined("connect: ", reason), size)
  }

  /** One turn of the loop of `tcp_connect_host`. */
  method TryAddress(kernel: Kernel) returns (fd: int, ghost attempt: seq<Call>)
    requires kernel.Valid()
    modifies kernel`open, kernel`sent, kernel`heldAt, kernel`now, kernel`calls
    ensures kernel.Valid() && fd >= -1 && old(kernel.now) <= kernel.now
    ensures Opened(fd, Held(old(kernel.open), kernel.ssl), kernel.open, kernel.sent, kernel.heldAt)
    ensures Kept(old(kernel.open), old(kernel.sent), kernel.sent) && Silent(old(kernel.sent), kernel.sent)
    ensures kernel.calls == old(kernel.calls) + attempt && During(attempt, old(kernel.now), kernel.now)
    ensures IsAttempt(attempt, fd >= 0)
  {
    ghost var socket, connection;
    fd, socket := kernel.Socket();
    attempt := [socket];
    if fd < 0 { return -1, attempt; }
    var connected;
    connected, connection := kernel.Connect(fd);
    attempt := [socket, connection];
    if connected { return; }
    kernel.Close(fd);
    fd := -1;
  }

  lemma Associates<T>(a: seq<T>, b: seq<T>, c: seq<T>)
    ensures a + b + c == a + (b + c)
  {
  }

  /** What one turn of the loop adds to what the turns before it have left. */
  lemma OneMoreTurn(dial: seq<Call>, attempt: seq<Call>, tried: nat, candidates: nat, connected: bool,
                    from: int, middle: int, to: int)
    requires Dialling(dial, tried) && tried < candidates && IsAttempt(attempt, connected)
    requires During(dial, from, middle) && During(attempt, middle, to) && from <= middle <= to
    ensures During(dial + attempt, from, to)
    ensures if connected then Dialled(dial + attempt, candidates, true) else Dialling(dial + attempt, tried + 1)
  {
    hide Dialling, Dialled, IsAttempt, During;
    DuringConcat(dial, attempt, from, middle, to);
    if connected { OneConnected(dial, tried, candidates, attempt); } else { OneMoreTried(dial, tried, attempt); }
  }

  /** The loop of `tcp_connect_host`: the addresses in turn, as long as none connects. */
  method TryAddresses(kernel: Kernel, candidates: nat, ghost past: seq<Call>, ghost lookUp: seq<Call>, ghost from: int)
    returns (fd: int, ghost dial: seq<Call>)
    requires kernel.Valid() && Dialling(lookUp, 0) && During(lookUp, from, kernel.now) && from <= kernel.now
    requires kernel.calls == past + lookUp
    modifies kernel`open, kernel`sent, kernel`heldAt, kernel`now, kernel`calls
    ensures kernel.Valid() && fd >= -1 && old(kernel.now) <= kernel.now
    ensures Opened(fd, Held(old(kernel.open), kernel.ssl), kernel.open, kernel.sent, kernel.heldAt)
    ensures Kept(old(kernel.open), old(kernel.sent), kernel.sent) && Silent(old(kernel.sent), kernel.sent)
    ensures kernel.calls == past + dial && During(dial, from, kernel.now) && Dialled(dial, candidates, fd >= 0)
  {
    hide Dialling, Dialled, During, IsAttempt, Silent, Opened, Kept;
    ghost var open, sent := kernel.open, kernel.sent;
    SilentAtFirst(sent);
    KeptAtFirst(open, sent);
    fd, dial := -1, lookUp;
    var current := 0;
    while current < candidates
      invariant current <= candidates && fd == -1 && kernel.Valid()
      invariant from <= old(kernel.now) <= kernel.now && kernel.open == open
      invariant Kept(open, sent, kernel.sent) && Silent(sent, kernel.sent)
      invariant kernel.calls == past + dial && During(dial, from, kernel.now) && Dialling(dial, current)
    {
      ghost var before, received := kernel.now, kernel.sent;
      ghost var attempt;
      fd, attempt := TryAddress(kernel);
      Associates(past, dial, attempt);
      OneMoreTurn(dial, attempt, current, candidates, fd >= 0, from, before, kernel.now);
      SilentThroughout(sent, received, kernel.sent);
      KeptThroughout(open, sent, received, kernel.sent);
      dial := dial + attempt;
      if fd >= 0 { return; }
      NothingOpened(fd, Held(open, kernel.ssl), kernel.open, kernel.sent, kernel.heldAt);
      current := current + 1;
    }
    NothingOpened(-1, Held(open, kernel.ssl), kernel.open, kernel.sent, kernel.heldAt);
    NothingTried(dial, candidates);
  }

  /**
   `tcp_connect_host`: looks the host up, tries each resolved address in turn, as long as none
   connects, and leaves exactly the socket it returns open. `candidates` is the length of the
   resolver's list, negative when it failed.
   */
  method TcpConnectHost(kernel: Kernel, host: string, candidates: int, errorSize: nat)
    returns (fd: int, error: string, ghost dial: seq<Call>)
    requires kernel.Valid() && errorSize > 0
    modifies kernel`open, kernel`sent, kernel`heldAt, kernel`now, kernel`calls, kernel`resolved
    ensures kernel.Valid() && fd >= -1 && old(kernel.now) <= kernel.now
    ensures Opened(fd, Held(old(kernel.open), kernel.ssl), kernel.open, kernel.sent, kernel.heldAt)
    ensures |error| < errorSize && NoNul(error) && (fd >= 0 ==> error == "")
    ensures fd < 0 ==> Printed(if candidates < 0 then "getaddrinfo: " else "connect: ", errorSize) <= error
    ensures Kept(old(kernel.open), old(kernel.sent), kernel.sent) && Silent(old(kernel.sent), kernel.sent)
    ensures kernel.calls == old(kernel.calls) + dial && During(dial, old(kernel.now), kernel.now)
    ensures Dialled(dial, candidates, fd >= 0) && kernel.resolved == old(kernel.resolved) + [host]
  {
    hide Dialling, Dialled, During, Silent, Opened, Kept, LookUpError, ConnectError, Printed;
    error := "";
    ghost var call := kernel.LookUp(host);
    dial := [call];
    Looked(call, old(kernel.now), kernel.now);
    if candidates < 0 {
      var reason: CString := *;
      SilentAtFirst(kernel.sent);
      KeptAtFirst(kernel.open, kernel.sent);
      NothingOpened(-1, Held(kernel.open, kernel.ssl), kernel.open, kernel.sent, kernel.heldAt);
      NothingTried(dial, candidates);
      return -1, LookUpError(reason, errorSize), dial;
    }
    fd, dial := TryAddresses(kernel, candidates, old(kernel.calls), dial, old(kernel.now));
    if fd < 0 {
      var reason: CString := *;
      error := ConnectError(reason, errorSize);
    }
  }

  lemma Looked(call: Call, from: int, to: int)
    requires call.what == Resolve && from <= call.began <= call.ended <= to
    ensures Dialling([call], 0) && During([call], from, to)
  {
  }

  lemma NothingTried(dial: seq<Call>, candidates: int)
    ensures Dialling(dial, if candidates < 0 then 0 else candidates) <==> Dialled(dial, candidates, false)
  {
  }
}
