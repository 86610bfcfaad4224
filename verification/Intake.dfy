/**
 What the dashboard makes of a posted JSON object: each field is looked up by its name in
 `schemas.py`, absent and null are alike, and a value of the wrong kind is refused.
 */
module Intake {
  import opened Wrappers
  import opened Modes
  import opened Json
  import opened Messages
  import Store

  function Lookup(entries: seq<Entry>, name: seq<int>): Option<Value> {
    if entries == [] then None
    else if entries[0].name == name then Some(entries[0].value)
    else Lookup(entries[1..], name)
  }

  predicate IsScalar(unit: int) {
    0 <= unit < 0xD800 || 0xE000 <= unit < 0x11_0000
  }

  /** The text that code units spell, if each of them is a character. */
  function Chars(units: seq<int>): Option<string> {
    if units == [] then Some("")
    else if !IsScalar(units[0]) || Chars(units[1..]).None? then None
    else Some([units[0] as char] + Chars(units[1..]).value)
  }

  /** A field that was read, possibly as null, or a refusal. */
  datatype Field<T> = Refused | Taken(value: Option<T>)

  function TextField(entries: seq<Entry>, name: string): Field<string> {
    match Lookup(entries, Units(name))
    case None => Taken(None)
    case Some(Nil) => Taken(None)
    case Some(Str(units)) => if Chars(units).Some? then Taken(Chars(units)) else Refused
    case Some(_) => Refused
  }

  function NumberField(entries: seq<Entry>, name: string): Field<int> {
    match Lookup(entries, Units(name))
    case None => Taken(None)
    case Some(Nil) => Taken(None)
    case Some(Num(n)) => Taken(Some(n))
    case Some(_) => Refused
  }

  function FlagField(entries: seq<Entry>, name: string): Field<bool> {
    match Lookup(entries, Units(name))
    case Some(Bool(b)) => Taken(Some(b))
    case _ => Refused
  }

  /** A field that has a value. */
  predicate Given<T>(field: Field<T>) {
    field.Taken? && field.value.Some?
  }

  function ModeNamed(name: string): Option<Mode> {
    if name == "classical" then Some(Classical)
    else if name == "hybrid" then Some(Hybrid)
    else if name == "hybrid_p256" then Some(HybridP256)
    else None
  }

  // ---- The three kinds of object ----

  function Columns(group: Field<string>, version: Field<string>, cipher: Field<string>): Option<Store.Negotiated> {
    if group.Taken? && version.Taken? && cipher.Taken?
    then Some(Store.Negotiated(group.value, version.value, cipher.value)) else None
  }

  function NamesOf(entries: seq<Entry>): Option<Store.Negotiated> {
    Columns(TextField(entries, "negotiated_group"), TextField(entries, "tls_version"), TextField(entries, "cipher"))
  }

  function Timing(tcp: Field<int>, handshake: Field<int>, ttfb: Field<int>, total: Field<int>,
                  sent: Field<int>, received: Field<int>): Option<Store.ClientTiming>
  {
    if tcp.Taken? && handshake.Taken? && ttfb.Taken? && total.Taken? && sent.Taken? && received.Taken?
    then Some(Store.ClientTiming(tcp.value, handshake.value, ttfb.value, total.value, sent.value, received.value))
    else None
  }

  function TimingOf(entries: seq<Entry>): Option<Store.ClientTiming> {
    Timing(NumberField(entries, "client_tcp_us"), NumberField(entries, "client_handshake_us"),
           NumberField(entries, "client_ttfb_us"), NumberField(entries, "client_total_us"),
           NumberField(entries, "bytes_sent"), NumberField(entries, "bytes_received"))
  }

  function Client(sample: Field<string>, run: Field<string>, mode: Field<string>, group: Field<string>,
                  names: Option<Store.Negotiated>, timing: Option<Store.ClientTiming>,
                  success: Field<bool>, error: Field<string>): Option<Store.ClientPayload>
  {
    if Given(sample) && Given(run) && Given(mode) && ModeNamed(mode.value.value).Some? && Given(group) &&
       names.Some? && timing.Some? && Given(success) && error.Taken?
    then Some(Store.ClientPayload(sample.value.value, run.value.value, ModeNamed(mode.value.value).value,
                                  group.value.value, names.value, timing.value, success.value.value, error.value))
    else None
  }

  function ClientOf(entries: seq<Entry>): Option<Store.ClientPayload> {
    Client(TextField(entries, "sample_id"), TextField(entries, "run_id"), TextField(entries, "mode"),
           TextField(entries, "expected_group"), NamesOf(entries), TimingOf(entries),
           FlagField(entries, "success"), TextField(entries, "error"))
  }

  function Server(sample: Field<string>, run: Field<string>, mode: Field<string>, group: Field<string>,
                  names: Option<Store.Negotiated>, handshake: Field<int>): Option<Store.ServerPayload>
  {
    if Given(sample) && Given(run) && Given(mode) && ModeNamed(mode.value.value).Some? && Given(group) &&
       names.Some? && Given(handshake)
    then Some(Store.ServerPayload(sample.value.value, run.value.value, ModeNamed(mode.value.value).value,
                                  group.value.value, names.value, handshake.value.value))
    else None
  }

  function ServerOf(entries: seq<Entry>): Option<Store.ServerPayload> {
    Server(TextField(entries, "sample_id"), TextField(entries, "run_id"), TextField(entries, "mode"),
           TextField(entries, "expected_group"), NamesOf(entries), NumberField(entries, "server_handshake_us"))
  }

  function Run(run: Field<string>, client: Field<string>, version: Field<string>,
               iterations: Field<int>, warmup: Field<int>, notes: Field<string>): Option<Store.RunPayload>
  {
    if Given(run) && client.Taken? && version.Taken? && iterations.Taken? && warmup.Taken? && notes.Taken?
    then Some(Store.RunPayload(run.value.value, client.value, version.value, iterations.value, warmup.value,
                               notes.value))
    else None
  }

  function RunOf(entries: seq<Entry>): Option<Store.RunPayload> {
    Run(TextField(entries, "run_id"), TextField(entries, "client_name"), TextField(entries, "openssl_version"),
        NumberField(entries, "iterations"), NumberField(entries, "warmup"), TextField(entries, "notes"))
  }

  // ---- Looking up by name ----

  /** Entries given by their names and values. */
  function Labelled(names: seq<string>, values: seq<Value>): (entries: seq<Entry>)
    requires |names| == |values|
    ensures |entries| == |names|
    ensures forall i :: 0 <= i < |names| ==> entries[i] == Entry(Units(names[i]), values[i])
  {
    if names == [] then [] else [Entry(Units(names[0]), values[0])] + Labelled(names[1..], values[1..])
  }

  lemma {:induction false} LookupLabelled(names: seq<string>, values: seq<Value>, k: nat)
    requires |names| == |values| && k < |names|
    requires forall i :: 0 <= i < k ==> names[i] != names[k]
    ensures Lookup(Labelled(names, values), Units(names[k])) == Some(values[k])
  {
    hide Units;
    var entries := Labelled(names, values);
    if k > 0 {
      if Units(names[0]) == Units(names[k]) { UnitsInjective(names[0], names[k]); }
      LookupLabelled(names[1..], values[1..], k - 1);
      assert entries[1..] == Labelled(names[1..], values[1..]);
    }
  }

  lemma {:induction false} CharsOfUnits(text: string)
    ensures Chars(Units(text)) == Some(text)
  {
    if text != "" {
      CharsOfUnits(text[1..]);
      assert Units(text)[1..] == Units(text[1..]);
      assert text == [text[0]] + text[1..];
    }
  }

  lemma ModeOfName(mode: Mode)
    ensures ModeNamed(Name(mode)) == Some(mode)
  {
    assert |"classical"| == 9 && |"hybrid"| == 6 && |"hybrid_p256"| == 11;
  }

  lemma TextRead(entries: seq<Entry>, name: string, text: Option<string>)
    requires Lookup(entries, Units(name)) == Some(StrOf(text))
    ensures TextField(entries, name) == Taken(text)
  {
    hide Units, Chars, Lookup;
    if text.Some? { CharsOfUnits(text.value); }
  }

  lemma NumberRead(entries: seq<Entry>, name: string, n: Option<int>)
    requires Lookup(entries, Units(name)) == Some(NumOf(n)) && Countable(n)
    ensures NumberField(entries, name) == Taken(n)
  {
    hide Units, Lookup;
  }

  lemma {:induction false} LabelledConcat(n: seq<string>, v: seq<Value>, n': seq<string>, v': seq<Value>)
    requires |n| == |v| && |n'| == |v'|
    ensures Labelled(n + n', v + v') == Labelled(n, v) + Labelled(n', v')
  {
    hide Labelled, Units;
  }

  // ---- What was reported is what is taken in ----

  const COMMON_NAMES :=
    ["sample_id", "run_id", "mode", "expected_group", "negotiated_group", "tls_version", "cipher"]
  const SPAN_NAMES :=
    ["client_tcp_us", "client_handshake_us", "client_ttfb_us", "client_total_us", "bytes_sent", "bytes_received"]
  const OUTCOME_NAMES := ["success", "error"]
  const CLIENT_NAMES := COMMON_NAMES + SPAN_NAMES + OUTCOME_NAMES

  function CommonValues(sampleId: string, runId: string, mode: Mode, group: string, n: Store.Negotiated): seq<Value> {
    [StrOf(Some(sampleId)), StrOf(Some(runId)), StrOf(Some(Name(mode))), StrOf(Some(group)),
     StrOf(n.group), StrOf(n.tlsVersion), StrOf(n.cipher)]
  }

  function SpanValues(t: Store.ClientTiming): seq<Value> {
    [NumOf(t.tcpUs), NumOf(t.handshakeUs), NumOf(t.ttfbUs), NumOf(t.totalUs), NumOf(t.bytesSent),
     NumOf(t.bytesReceived)]
  }

  lemma CommonAre(sampleId: string, runId: string, mode: Mode, group: string, n: Store.Negotiated)
    ensures CommonEntries(sampleId, runId, mode, group, n) ==
            Labelled(COMMON_NAMES, CommonValues(sampleId, runId, mode, group, n))
  {
    hide Units, StrOf, Name, Labelled;
  }

  lemma SpansAre(t: Store.ClientTiming)
    ensures SpanEntries(t) == Labelled(SPAN_NAMES, SpanValues(t))
  {
    hide Units, NumOf, Labelled;
  }

  function ClientValues(p: Store.ClientPayload): seq<Value> {
    CommonValues(p.sampleId, p.runId, p.mode, p.expectedGroup, p.negotiated) + SpanValues(p.timing) +
    [Bool(p.success), StrOf(p.error)]
  }

  lemma ClientEntriesAre(p: Store.ClientPayload)
    ensures ClientEntries(p) == Labelled(CLIENT_NAMES, ClientValues(p))
  {
    hide Units, StrOf, CommonEntries, SpanEntries, CommonValues, SpanValues, Labelled;
    CommonAre(p.sampleId, p.runId, p.mode, p.expectedGroup, p.negotiated);
    SpansAre(p.timing);
    var c, s := CommonValues(p.sampleId, p.runId, p.mode, p.expectedGroup, p.negotiated), SpanValues(p.timing);
    SevenAndSix(p);
    LabelledConcat(COMMON_NAMES, c, SPAN_NAMES, s);
    LabelledConcat(COMMON_NAMES + SPAN_NAMES, c + s, OUTCOME_NAMES, [Bool(p.success), StrOf(p.error)]);
    assert OutcomeEntries(p.success, p.error) == Labelled(OUTCOME_NAMES, [Bool(p.success), StrOf(p.error)]);
  }

  lemma SevenAndSix(p: Store.ClientPayload)
    ensures |CommonValues(p.sampleId, p.runId, p.mode, p.expectedGroup, p.negotiated)| == 7
    ensures |SpanValues(p.timing)| == 6
  {
  }

  lemma ClientNamesDiffer(i: nat, j: nat)
    requires i < j < |CLIENT_NAMES|
    ensures CLIENT_NAMES[i] != CLIENT_NAMES[j]
  {
    assert "run_id"[0] != "cipher"[0] && "expected_group"[0] != "client_ttfb_us"[0];
    assert "expected_group"[0] != "bytes_received"[0] && "client_ttfb_us"[0] != "bytes_received"[0];
  }

  lemma {:induction false} ClientLookup(p: Store.ClientPayload, k: nat)
    requires k < 15
    ensures |ClientValues(p)| == |CLIENT_NAMES| == 15
    ensures Lookup(ClientEntries(p), Units(CLIENT_NAMES[k])) == Some(ClientValues(p)[k])
  {
    hide Units, StrOf, NumOf, Name, Lookup, Labelled, ClientEntries;
    ClientEntriesAre(p);
    forall i | 0 <= i < k ensures CLIENT_NAMES[i] != CLIENT_NAMES[k] { ClientNamesDiffer(i, k); }
    LookupLabelled(CLIENT_NAMES, ClientValues(p), k);
  }

  /** The common fields stand under their names. */
  ghost predicate CommonSaid(e: seq<Entry>, s: string, r: string, m: Mode, g: string, n: Store.Negotiated) {
    forall k :: 0 <= k < 7 ==> Lookup(e, Units(COMMON_NAMES[k])) == Some(CommonValues(s, r, m, g, n)[k])
  }

  lemma IdsTaken(e: seq<Entry>, s: string, r: string, m: Mode, g: string, n: Store.Negotiated)
    requires CommonSaid(e, s, r, m, g, n)
    ensures TextField(e, "sample_id") == Taken(Some(s)) && TextField(e, "run_id") == Taken(Some(r))
    ensures TextField(e, "mode") == Taken(Some(Name(m))) && TextField(e, "expected_group") == Taken(Some(g))
  {
    hide Units, StrOf, Name, Lookup, TextField;
    assert COMMON_NAMES[0] == "sample_id" && COMMON_NAMES[1] == "run_id";
    assert COMMON_NAMES[2] == "mode" && COMMON_NAMES[3] == "expected_group";
    TextRead(e, "sample_id", Some(s));
    TextRead(e, "run_id", Some(r));
    TextRead(e, "mode", Some(Name(m)));
    TextRead(e, "expected_group", Some(g));
  }

  lemma NamesTaken(e: seq<Entry>, s: string, r: string, m: Mode, g: string, n: Store.Negotiated)
    requires CommonSaid(e, s, r, m, g, n)
    ensures NamesOf(e) == Some(n)
  {
    hide Units, StrOf, Name, Lookup, TextField;
    assert COMMON_NAMES[4] == "negotiated_group" && COMMON_NAMES[5] == "tls_version" && COMMON_NAMES[6] == "cipher";
    TextRead(e, "negotiated_group", n.group);
    TextRead(e, "tls_version", n.tlsVersion);
    TextRead(e, "cipher", n.cipher);
  }

  lemma CommonOfClient(p: Store.ClientPayload)
    ensures CommonSaid(ClientEntries(p), p.sampleId, p.runId, p.mode, p.expectedGroup, p.negotiated)
  {
    hide Units, Lookup, ClientEntries, CommonValues, SpanValues;
    SevenAndSix(p);
    forall k: nat | k < 7
      ensures Lookup(ClientEntries(p), Units(COMMON_NAMES[k])) ==
              Some(CommonValues(p.sampleId, p.runId, p.mode, p.expectedGroup, p.negotiated)[k])
    {
      ClientLookup(p, k);
    }
  }

  lemma SpanValuesAt(p: Store.ClientPayload, j: nat)
    requires j < 6
    ensures |ClientValues(p)| == |CLIENT_NAMES| == 15 && |SpanValues(p.timing)| == 6
    ensures ClientValues(p)[7 + j] == SpanValues(p.timing)[j] && CLIENT_NAMES[7 + j] == SPAN_NAMES[j]
  {
  }

  lemma SpanLookup(p: Store.ClientPayload, j: nat)
    requires j < 6
    ensures |SpanValues(p.timing)| == 6
    ensures Lookup(ClientEntries(p), Units(SPAN_NAMES[j])) == Some(SpanValues(p.timing)[j])
  {
    hide Units, Lookup, ClientEntries, ClientValues, SpanValues;
    SpanValuesAt(p, j);
    ClientLookup(p, 7 + j);
  }

  lemma TimingTaken(p: Store.ClientPayload)
    requires CountableTiming(p.timing)
    ensures TimingOf(ClientEntries(p)) == Some(p.timing)
  {
    hide Units, NumOf, Lookup, ClientEntries, NumberField, Countable;
    var e, t := ClientEntries(p), p.timing;
    forall j: nat | j < 6 ensures Lookup(e, Units(SPAN_NAMES[j])) == Some(SpanValues(t)[j]) { SpanLookup(p, j); }
    NumberRead(e, SPAN_NAMES[0], t.tcpUs);
    NumberRead(e, SPAN_NAMES[1], t.handshakeUs);
    NumberRead(e, SPAN_NAMES[2], t.ttfbUs);
    NumberRead(e, SPAN_NAMES[3], t.totalUs);
    NumberRead(e, SPAN_NAMES[4], t.bytesSent);
    NumberRead(e, SPAN_NAMES[5], t.bytesReceived);
  }

  lemma OutcomeTaken(p: Store.ClientPayload)
    ensures FlagField(ClientEntries(p), "success") == Taken(Some(p.success))
    ensures TextField(ClientEntries(p), "error") == Taken(p.error)
  {
    hide Units, StrOf, Lookup, ClientEntries, TextField, CommonValues, SpanValues;
    SevenAndSix(p);
    ClientLookup(p, 13);
    ClientLookup(p, 14);
    TextRead(ClientEntries(p), "error", p.error);
  }

  /** The dashboard takes in exactly the report that a client's message means. */
  lemma ClientTakenIn(p: Store.ClientPayload)
    requires CountableTiming(p.timing)
    ensures ClientOf(ClientEntries(p)) == Some(p)
  {
    hide TextField, FlagField, NamesOf, TimingOf, ClientEntries, CountableTiming, ModeNamed, Name, CommonSaid;
    CommonOfClient(p);
    IdsTaken(ClientEntries(p), p.sampleId, p.runId, p.mode, p.expectedGroup, p.negotiated);
    NamesTaken(ClientEntries(p), p.sampleId, p.runId, p.mode, p.expectedGroup, p.negotiated);
    TimingTaken(p);
    OutcomeTaken(p);
    ModeOfName(p.mode);
  }

  // ---- The server's report ----

  const SERVER_NAMES := COMMON_NAMES + ["server_handshake_us"]

  function ServerValues(p: Store.ServerPayload): seq<Value> {
    CommonValues(p.sampleId, p.runId, p.mode, p.expectedGroup, p.negotiated) + [NumOf(Some(p.handshakeUs))]
  }

  lemma ServerNamesDiffer(i: nat, j: nat)
    requires i < j < |SERVER_NAMES|
    ensures SERVER_NAMES[i] != SERVER_NAMES[j]
  {
    assert "run_id"[0] != "cipher"[0];
  }

  lemma {:induction false} ServerLookup(p: Store.ServerPayload, k: nat)
    requires k < 8
    ensures |ServerValues(p)| == |SERVER_NAMES| == 8
    ensures Lookup(ServerEntries(p), Units(SERVER_NAMES[k])) == Some(ServerValues(p)[k])
  {
    hide Units, StrOf, NumOf, Name, Lookup, Labelled, CommonEntries;
    CommonAre(p.sampleId, p.runId, p.mode, p.expectedGroup, p.negotiated);
    LabelledConcat(COMMON_NAMES, CommonValues(p.sampleId, p.runId, p.mode, p.expectedGroup, p.negotiated),
                   ["server_handshake_us"], [NumOf(Some(p.handshakeUs))]);
    assert NumberEntry("server_handshake_us", Some(p.handshakeUs)) ==
           Labelled(["server_handshake_us"], [NumOf(Some(p.handshakeUs))]);
    assert ServerEntries(p) == Labelled(SERVER_NAMES, ServerValues(p));
    forall i | 0 <= i < k ensures SERVER_NAMES[i] != SERVER_NAMES[k] { ServerNamesDiffer(i, k); }
    LookupLabelled(SERVER_NAMES, ServerValues(p), k);
  }

  lemma ServerCommon(p: Store.ServerPayload)
    ensures CommonSaid(ServerEntries(p), p.sampleId, p.runId, p.mode, p.expectedGroup, p.negotiated)
    ensures Lookup(ServerEntries(p), Units("server_handshake_us")) == Some(NumOf(Some(p.handshakeUs)))
  {
    hide Units, StrOf, NumOf, Lookup, ServerEntries, Name;
    forall k: nat | k < 7
      ensures Lookup(ServerEntries(p), Units(COMMON_NAMES[k])) ==
              Some(CommonValues(p.sampleId, p.runId, p.mode, p.expectedGroup, p.negotiated)[k])
    {
      ServerLookup(p, k);
    }
    ServerLookup(p, 7);
  }

  /** And exactly the report that a server's message means. */
  lemma ServerTakenIn(p: Store.ServerPayload)
    requires p.handshakeUs >= 0
    ensures ServerOf(ServerEntries(p)) == Some(p)
  {
    hide TextField, NumberField, NamesOf, ServerEntries, ModeNamed, Name, CommonSaid, Units, NumOf, Lookup;
    ServerCommon(p);
    IdsTaken(ServerEntries(p), p.sampleId, p.runId, p.mode, p.expectedGroup, p.negotiated);
    NamesTaken(ServerEntries(p), p.sampleId, p.runId, p.mode, p.expectedGroup, p.negotiated);
    NumberRead(ServerEntries(p), "server_handshake_us", Some(p.handshakeUs));
    ModeOfName(p.mode);
  }

  // ---- The creation of a run ----

  const RUN_NAMES := ["run_id", "client_name", "openssl_version", "iterations", "warmup", "notes"]

  function RunValues(p: Store.RunPayload): seq<Value> {
    [StrOf(Some(p.runId)), StrOf(p.clientName), StrOf(p.opensslVersion), NumOf(p.iterations), NumOf(p.warmup),
     StrOf(p.notes)]
  }

  lemma RunNamesDiffer(i: nat, j: nat)
    requires i < j < |RUN_NAMES|
    ensures RUN_NAMES[i] != RUN_NAMES[j]
  {
    assert "run_id"[0] != "warmup"[0];
  }

  lemma {:induction false} RunLookup(p: Store.RunPayload, k: nat)
    requires k < 6
    ensures Lookup(RunEntries(p), Units(RUN_NAMES[k])) == Some(RunValues(p)[k])
  {
    hide Units, StrOf, NumOf, Lookup, Labelled;
    assert RunEntries(p) == Labelled(RUN_NAMES, RunValues(p));
    forall i | 0 <= i < k ensures RUN_NAMES[i] != RUN_NAMES[k] { RunNamesDiffer(i, k); }
    LookupLabelled(RUN_NAMES, RunValues(p), k);
  }

  /** And exactly the run that a creation request describes. */
  lemma RunTakenIn(p: Store.RunPayload)
    requires Countable(p.iterations) && Countable(p.warmup)
    ensures RunOf(RunEntries(p)) == Some(p)
  {
    hide Units, StrOf, NumOf, Lookup, TextField, NumberField, RunEntries, Countable;
    var e := RunEntries(p);
    forall k: nat | k < 6 ensures Lookup(e, Units(RUN_NAMES[k])) == Some(RunValues(p)[k]) { RunLookup(p, k); }
    TextRead(e, RUN_NAMES[0], Some(p.runId));
    TextRead(e, RUN_NAMES[1], p.clientName);
    TextRead(e, RUN_NAMES[2], p.opensslVersion);
    NumberRead(e, RUN_NAMES[3], p.iterations);
    NumberRead(e, RUN_NAMES[4], p.warmup);
    TextRead(e, RUN_NAMES[5], p.notes);
  }

  /** No two halves share a message: reports that read alike are alike. */
  lemma EntriesDetermine(p: Store.ClientPayload, q: Store.ClientPayload, s: Store.ServerPayload, t: Store.ServerPayload)
    ensures CountableTiming(p.timing) && CountableTiming(q.timing) && ClientEntries(p) == ClientEntries(q) ==> p == q
    ensures s.handshakeUs >= 0 && t.handshakeUs >= 0 && ServerEntries(s) == ServerEntries(t) ==> s == t
  {
    hide ClientEntries, ServerEntries, CountableTiming, ClientOf, ServerOf;
    if CountableTiming(p.timing) && CountableTiming(q.timing) {
      ClientTakenIn(p);
      ClientTakenIn(q);
    }
    if s.handshakeUs >= 0 && t.handshakeUs >= 0 {
      ServerTakenIn(s);
      ServerTakenIn(t);
    }
  }
}
