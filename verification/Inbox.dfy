/**
 The durable message queue (src/mesh/inbox.cpp). A message is committed to disk
 before `store` returns, because an acknowledgement follows; pops are written
 lazily. The file is replaced atomically or not at all.
 */
module Inbox {
  import opened Bytes
  import opened Records

  const HEADER := "# coreletd messages v1"
  const COLUMN_NAMES := ["# kind", "peer", "channel", "timestamp", "txt_type", "snr_q4", "path_len", "text_hex"]
  const FIELDS := 8
  const PUBKEY := 32
  const MAX_U32 := 0xffff_ffff

  type Word = n: int | 0 <= n <= 0xffff_ffff
  type Small = n: int | -128 <= n <= 127

  datatype Message = Message(isChannel: bool, sender: ByteString, channel: Byte, timestamp: Word,
                             kind: Byte, snr: Small, pathLen: Byte, text: ByteString)

  /** A direct message names its sender by a whole key; a channel message need
      not name one. */
  predicate Storable(m: Message) {
    |m.sender| == PUBKEY || (m.sender == [] && m.isChannel)
  }

  // ---- The file --------------------------------------------------------

  function Fields(m: Message): (f: seq<string>)
    ensures |f| == FIELDS
  {
    [if m.isChannel then "channel" else "direct",
     if m.sender == [] then "-" else Hex(m.sender),
     Decimal(m.channel), Decimal(m.timestamp), Decimal(m.kind), SignedDecimal(m.snr), Decimal(m.pathLen),
     Hex(m.text)]
  }

  function Record(m: Message): string {
    Join(Fields(m))
  }

  function Rows(q: seq<Message>): seq<string> {
    if q == [] then [] else [Record(q[0])] + Rows(q[1..])
  }

  /** A file with the given version header and column heading. */
  function WithHeaders(header: string, columns: string, rows: seq<string>): string {
    Unlines([header, columns] + rows)
  }

  function FileText(header: string, columns: string, q: seq<Message>): string {
    WithHeaders(header, columns, Rows(q))
  }

  function SaveText(q: seq<Message>): string {
    FileText(HEADER, Join(COLUMN_NAMES), q)
  }

  /** The sender field: "-" for none, which only a channel message may have. */
  function ParseSender(field: string, isChannel: bool): Option<ByteString> {
    if field == "-" then (if isChannel then Some([]) else None)
    else
      var key := Unhex(field);
      if key.None? || |key.value| != PUBKEY then None else key
  }

  function ParseFields(f: seq<string>): Option<Message>
    requires |f| == FIELDS
  {
    if f[0] != "channel" && f[0] != "direct" then None else
    var isChannel := f[0] == "channel";
    var sender := ParseSender(f[1], isChannel);
    if sender.None? then None else ParseRest(isChannel, sender.value, f)
  }

  function ParseRest(isChannel: bool, sender: ByteString, f: seq<string>): Option<Message>
    requires |f| == FIELDS
  {
    var channel := ParseUnsigned(f[2], 255);
    var timestamp := ParseUnsigned(f[3], MAX_U32);
    var kind := ParseUnsigned(f[4], 255);
    var snr := ParseSigned(f[5], -128, 127);
    var pathLen := ParseUnsigned(f[6], 255);
    if channel.None? || timestamp.None? || kind.None? || snr.None? || pathLen.None? then None else
    var text := Unhex(f[7]);
    if text.None? then None else
    Some(Message(isChannel, sender, channel.value, timestamp.value, kind.value, snr.value, pathLen.value, text.value))
  }

  function ParseRecord(line: string): Option<Message> {
    var split := SplitFields(line, FIELDS);
    if split.None? then None else ParseFields(split.value)
  }

  predicate Skipped(line: string) {
    line == "" || line[0] == '#'
  }

  /** The messages on the lines, or None if some record is malformed. */
  function ParseLines(lines: seq<string>): Option<seq<Message>> {
    if lines == [] then Some([])
    else if Skipped(lines[0]) then ParseLines(lines[1..])
    else
      var m := ParseRecord(lines[0]);
      var rest := ParseLines(lines[1..]);
      if m.None? || rest.None? then None else Some([m.value] + rest.value)
  }

  datatype LoadResult = Missing | Loaded | Corrupt

  function ParseFile(header: string, text: string): Option<seq<Message>> {
    var lines := Lines(text);
    if header !in lines then None else ParseLines(lines)
  }

  /** What a file holds: None when it is corrupt, which includes lacking the
      version header. */
  function LoadText(text: string): Option<seq<Message>> {
    ParseFile(HEADER, text)
  }

  lemma KindIsPlain(isChannel: bool)
    ensures var k := if isChannel then "channel" else "direct"; '\t' !in k && '\n' !in k
  {}

  lemma {:induction false} FieldsArePlain(m: Message)
    ensures forall i :: 0 <= i < FIELDS ==> '\t' !in Fields(m)[i] && '\n' !in Fields(m)[i]
  {
    KindIsPlain(m.isChannel);
    HexIsPlain(m.sender);
    HexIsPlain(m.text);
    DecimalIsPlain(m.channel);
    DecimalIsPlain(m.timestamp);
    DecimalIsPlain(m.kind);
    DecimalIsPlain(m.pathLen);
    SignedRoundTrip(m.snr, -128, 127);
  }

  lemma SenderRoundTrip(m: Message)
    ensures ParseSender(Fields(m)[1], m.isChannel) == if Storable(m) then Some(m.sender) else None
  {
    HexRoundTrip(m.sender);
    HexIsPlain(m.sender);
    assert "-"[0] in "-";
  }

  /** Whatever stands in the first two fields. */
  lemma {:induction false} RestRoundTrip(m: Message, f: seq<string>)
    requires |f| == FIELDS
    requires f[2..] == [Decimal(m.channel), Decimal(m.timestamp), Decimal(m.kind), SignedDecimal(m.snr), Decimal(m.pathLen),
                        Hex(m.text)]
    ensures ParseRest(m.isChannel, m.sender, f) == Some(m)
  {
    assert forall i :: 2 <= i < FIELDS ==> f[i] == f[2..][i - 2];
    UnsignedRoundTrip(m.channel, 255);
    UnsignedRoundTrip(m.timestamp, MAX_U32);
    UnsignedRoundTrip(m.kind, 255);
    SignedRoundTrip(m.snr, -128, 127);
    UnsignedRoundTrip(m.pathLen, 255);
    HexRoundTrip(m.text);
  }

  lemma {:induction false} FieldsRoundTrip(m: Message)
    ensures ParseFields(Fields(m)) == if Storable(m) then Some(m) else None
  {
    SenderRoundTrip(m);
    KindsDiffer();
    RestRoundTrip(m, Fields(m));
  }

  lemma KindsDiffer()
    ensures "channel" != "direct"
  {
    assert |"channel"| != |"direct"|;
  }

  lemma {:induction false} RecordIsPlain(m: Message)
    ensures '\n' !in Record(m) && !Skipped(Record(m))
  {
    var f := Fields(m);
    FieldsArePlain(m);
    JoinIsPlain(f, '\n');
    assert Join(f)[0] == f[0][0];
  }

  /** A record reads back exactly when the message was storable. */
  lemma {:induction false} RecordRoundTrip(m: Message)
    ensures ParseRecord(Record(m)) == if Storable(m) then Some(m) else None
  {
    FieldsArePlain(m);
    SplitJoined(Fields(m));
    FieldsRoundTrip(m);
  }

  predicate AllStorable(q: seq<Message>) {
    forall i :: 0 <= i < |q| ==> Storable(q[i])
  }

  lemma {:induction false} RowsArePlain(q: seq<Message>)
    ensures |Rows(q)| == |q|
    ensures forall i :: 0 <= i < |q| ==> '\n' !in Rows(q)[i]
    decreases |q|
  {
    if q != [] {
      RecordIsPlain(q[0]);
      RowsArePlain(q[1..]);
    }
  }

  lemma AllStorableCons(q: seq<Message>)
    requires q != []
    ensures AllStorable(q) <==> Storable(q[0]) && AllStorable(q[1..])
  {
    if Storable(q[0]) && AllStorable(q[1..]) {
      assert forall i :: 0 < i < |q| ==> q[i] == q[1..][i - 1];
    }
  }

  lemma {:induction false} RowsRoundTrip(q: seq<Message>)
    ensures ParseLines(Rows(q)) == if AllStorable(q) then Some(q) else None
    decreases |q|
  {
    if q != [] {
      var rest := Rows(q[1..]);
      RecordRoundTrip(q[0]);
      RecordIsPlain(q[0]);
      RowsRoundTrip(q[1..]);
      ParseLinesCons(Record(q[0]), rest);
      assert [q[0]] + q[1..] == q;
      AllStorableCons(q);
    }
  }

  lemma ParseLinesCons(line: string, rest: seq<string>)
    ensures ParseLines([line] + rest) ==
              if Skipped(line) then ParseLines(rest)
              else if ParseRecord(line).None? || ParseLines(rest).None? then None
              else Some([ParseRecord(line).value] + ParseLines(rest).value)
  {
    assert ([line] + rest)[1..] == rest;
  }

  lemma {:induction false} FileRoundTrip(header: string, columns: string, q: seq<Message>)
    requires '\n' !in header && '\n' !in columns && Skipped(header) && Skipped(columns)
    ensures ParseFile(header, FileText(header, columns, q)) == if AllStorable(q) then Some(q) else None
  {
    var lines := [header, columns] + Rows(q);
    RowsArePlain(q);
    assert forall i :: 0 <= i < |lines| ==> '\n' !in lines[i];
    LinesOfUnlines(lines);
    RowsRoundTrip(q);
    assert lines == [header] + ([columns] + Rows(q));
    ParseLinesCons(header, [columns] + Rows(q));
    ParseLinesCons(columns, Rows(q));
    assert lines[0] == header;
  }

  lemma HeaderIsSkipped()
    ensures Skipped(HEADER) && '\n' !in HEADER
  {}

  lemma NamesArePlain()
    ensures forall i :: 0 <= i < |COLUMN_NAMES| ==> '\n' !in COLUMN_NAMES[i]
  {}

  lemma HeadersArePlain()
    ensures '\n' !in HEADER && '\n' !in Join(COLUMN_NAMES) && Skipped(HEADER) && Skipped(Join(COLUMN_NAMES))
  {
    HeaderIsSkipped();
    NamesArePlain();
    JoinIsPlain(COLUMN_NAMES, '\n');
    assert Join(COLUMN_NAMES)[0] == COLUMN_NAMES[0][0];
  }

  /** Saving and loading gives the queue back exactly when every message in it
      is storable; otherwise the file reads as corrupt. */
  lemma {:induction false} SaveLoadRoundTrip(q: seq<Message>)
    ensures LoadText(SaveText(q)) == if AllStorable(q) then Some(q) else None
  {
    HeadersArePlain();
    FileRoundTrip(HEADER, Join(COLUMN_NAMES), q);
  }

  predicate Readable(line: string) {
    line == "" || line[0] == '#' || ParseRecord(line).Some?
  }

  lemma {:induction false} ParsesIff(lines: seq<string>)
    ensures ParseLines(lines).Some? <==> forall i :: 0 <= i < |lines| ==> Readable(lines[i])
    decreases |lines|
  {
    if lines != [] {
      ParsesIff(lines[1..]);
      assert lines == [lines[0]] + lines[1..];
      assert (forall i :: 0 <= i < |lines| ==> Readable(lines[i]))
        <==> Readable(lines[0]) && forall i :: 0 <= i < |lines[1..]| ==> Readable(lines[1..][i]);
    }
  }

  /** A file is taken exactly when it has the version header and every line is blank,
      a comment or a good record; anything else is corrupt and loads nothing. */
  lemma {:induction false} LoadsIff(text: string)
    ensures LoadText(text).Some? <==>
              HEADER in Lines(text) && forall i :: 0 <= i < |Lines(text)| ==> Readable(Lines(text)[i])
  {
    ParsesIff(Lines(text));
  }

  /** One line further into a file, of which `q` has been read. */
  lemma ParseOneMore(lines: seq<string>, i: nat, q: seq<Message>)
    requires i < |lines|
    ensures Prepend(q, ParseLines(lines[i..])) ==
              if Skipped(lines[i]) then Prepend(q, ParseLines(lines[i + 1..]))
              else if ParseRecord(lines[i]).None? then None
              else Prepend(q + [ParseRecord(lines[i]).value], ParseLines(lines[i + 1..]))
  {
    assert lines[i..] == [lines[i]] + lines[i + 1..];
    ParseLinesCons(lines[i], lines[i + 1..]);
    if ParseRecord(lines[i]).Some? {
      PrependOne(q, ParseRecord(lines[i]).value, ParseLines(lines[i + 1..]));
    }
  }

  lemma SeenSoFar(lines: seq<string>, i: nat, header: string)
    requires i < |lines|
    ensures header in lines[..i + 1] <==> header in lines[..i] || header == lines[i]
  {
    assert lines[..i + 1] == lines[..i] + [lines[i]];
  }

  // ---- The queue -------------------------------------------------------

  /** `file` is the disk: the last text installed, if any ever was. */
  datatype State = State(limit: nat, hasPath: bool, messages: seq<Message>, dropped: nat, dirty: bool, file: Option<string>)

  /** The newest `limit` messages. */
  function Trim(q: seq<Message>, limit: nat): seq<Message> {
    if |q| > limit then q[|q| - limit..] else q
  }

  /** `replaced` is whether the file could be written and installed. */
  function Save(s: State, replaced: bool): State {
    if !s.hasPath || !replaced then s else s.(file := Some(SaveText(s.messages)), dirty := false)
  }

  function Store(s: State, m: Message, replaced: bool): State {
    var q := s.messages + [m];
    var kept := Trim(q, s.limit);
    Save(s.(messages := kept, dropped := s.dropped + (|q| - |kept|), dirty := true), replaced)
  }

  /** What `store` answers: whether the message will survive a crash. */
  predicate Stored(s: State, replaced: bool) {
    !s.hasPath || replaced
  }

  function Pop(s: State): State {
    if s.messages == [] then s else s.(messages := s.messages[1..], dirty := true)
  }

  function Load(s: State): State {
    if !s.hasPath || s.file.None? || LoadText(s.file.value).None? then s else
      var q := LoadText(s.file.value).value;
      s.(messages := Trim(q, s.limit), dropped := s.dropped + (|q| - |Trim(q, s.limit)|), dirty := false)
  }

  class MessageInbox {
    const limit: nat
    const hasPath: bool
    var messages: seq<Message>
    var dropped: nat
    var dirty: bool
    var file: Option<string>

    ghost function Model(): State
      reads this
    {
      State(limit, hasPath, messages, dropped, dirty, file)
    }

    /** A queue just opened on what the disk holds; nothing is read yet. */
    constructor (limit: nat, hasPath: bool, file: Option<string>)
      ensures Model() == State(limit, hasPath, [], 0, false, file)
    {
      this.limit, this.hasPath, this.file := limit, hasPath, file;
      messages, dropped, dirty := [], 0, false;
    }

    method DropOldest()
      modifies this`messages, this`dropped
      ensures messages == Trim(old(messages), limit)
      ensures dropped == old(dropped) + (|old(messages)| - |messages|)
    {
      while |messages| > limit
        invariant |messages| <= |old(messages)| && messages == old(messages)[|old(messages)| - |messages|..]
        invariant |messages| >= |Trim(old(messages), limit)|
        invariant dropped == old(dropped) + (|old(messages)| - |messages|)
      {
        dropped := dropped + 1;
        messages := messages[1..];
      }
    }

    method Write() returns (text: string)
      ensures text == SaveText(messages)
    {
      var rows := WriteRows();
      text := WithHeaders(HEADER, Join(COLUMN_NAMES), rows);
    }

    method WriteRows() returns (rows: seq<string>)
      ensures rows == Rows(messages)
    {
      rows := [];
      for i := 0 to |messages|
        invariant rows == Rows(messages[..i])
      {
        RowsSnoc(messages[..i], messages[i]);
        assert messages[..i + 1] == messages[..i] + [messages[i]];
        rows := rows + [Record(messages[i])];
      }
      assert messages[..|messages|] == messages;
    }

    method Commit(replaced: bool) returns (ok: bool)
      modifies this`file, this`dirty
      ensures Model() == Save(old(Model()), replaced)
      ensures ok == (hasPath && replaced)
    {
      if !hasPath {
        return false;
      }
      var text := Write();
      if !replaced {
        return false;
      }
      file := Some(text);
      dirty := false;
      return true;
    }

    method Accept(m: Message, replaced: bool) returns (ok: bool)
      modifies this
      ensures Model() == Store(old(Model()), m, replaced)
      ensures ok == Stored(old(Model()), replaced)
    {
      messages := messages + [m];
      DropOldest();
      dirty := true;
      if !hasPath {
        return true;
      }
      ok := Commit(replaced);
    }

    method Take() returns (m: Option<Message>)
      modifies this
      ensures Model() == Pop(old(Model()))
      ensures m == if old(messages) == [] then None else Some(old(messages)[0])
    {
      if messages == [] {
        return None;
      }
      m := Some(messages[0]);
      messages := messages[1..];
      dirty := true;
    }

    method Parse(header: string, lines: seq<string>) returns (loaded: Option<seq<Message>>, sawHeader: bool)
      requires Skipped(header)
      ensures sawHeader ==> header in lines
      ensures loaded == ParseLines(lines)
      ensures loaded.Some? ==> (sawHeader <==> header in lines)
    {
      var q: seq<Message> := [];
      sawHeader := false;
      for i := 0 to |lines|
        invariant sawHeader <==> header in lines[..i]
        invariant ParseLines(lines) == Prepend(q, ParseLines(lines[i..]))
      {
        SeenSoFar(lines, i, header);
        ParseOneMore(lines, i, q);
        if lines[i] == header {
          sawHeader := true;
        } else if !Skipped(lines[i]) {
          var m := ParseRecord(lines[i]);
          if m.None? {
            return None, sawHeader;
          }
          q := q + [m.value];
        }
      }
      assert lines[..|lines|] == lines && lines[|lines|..] == [] && q + [] == q;
      return Some(q), sawHeader;
    }

    method Restore() returns (r: LoadResult)
      modifies this
      ensures Model() == Load(old(Model()))
      ensures r == if !hasPath || file.None? then Missing
                   else if LoadText(file.value).None? then Corrupt else Loaded
    {
      if !hasPath || file.None? {
        return Missing;
      }
      HeaderIsSkipped();
      var loaded, sawHeader := Parse(HEADER, Lines(file.value));
      if loaded.None? || !sawHeader {
        return Corrupt;
      }
      messages := loaded.value;
      DropOldest();
      dirty := false;
      return Loaded;
    }
  }

  lemma RowsSnoc(q: seq<Message>, m: Message)
    ensures Rows(q + [m]) == Rows(q) + [Record(m)]
  {
    if q != [] {
      assert (q + [m])[1..] == q[1..] + [m];
    }
  }

  // ---- Crashes ---------------------------------------------------------

  /** Every message ever stored, in order, less what a crash lost; the queue is
      `all[front..]`, the file holds `all[from..upto]`, and `promised` are the
      ones whose `store` answered true. */
  datatype History = History(box: State, all: seq<Message>, front: nat, from: nat, upto: nat, promised: set<nat>)

  datatype Event = Stores(m: Message, replaced: bool) | Pops | Flushes(replaced: bool) | Crashes

  /** A new process opens the same file. */
  function Reopen(s: State): State {
    Load(State(s.limit, s.hasPath, [], 0, false, s.file))
  }

  function Step(h: History, ev: Event): History {
    match ev
    case Stores(m, replaced) =>
      var box := Store(h.box, m, replaced);
      var all := h.all + [m];
      var front := if |box.messages| <= |all| then |all| - |box.messages| else 0;
      var promised := if Stored(h.box, replaced) then h.promised + {|h.all|} else h.promised;
      if replaced then History(box, all, front, front, |all|, promised)
      else History(box, all, front, h.from, h.upto, promised)
    case Pops =>
      h.(box := Pop(h.box), front := if h.box.messages == [] then h.front else h.front + 1)
    case Flushes(replaced) =>
      if h.box.dirty && replaced then h.(box := Save(h.box, true), from := h.front, upto := |h.all|) else h
    case Crashes =>
      h.(box := Reopen(h.box), all := if h.upto <= |h.all| then h.all[..h.upto] else h.all, front := h.from)
  }

  function Run(h: History, run: seq<Event>): History {
    if run == [] then h else Step(Run(h, run[..|run| - 1]), run[|run| - 1])
  }

  predicate Sane(run: seq<Event>) {
    forall i :: 0 <= i < |run| && run[i].Stores? ==> Storable(run[i].m)
  }

  predicate Indexed(h: History) {
    && h.from <= h.front <= |h.all| && h.from <= h.upto <= |h.all|
    && h.box.messages == h.all[h.front..] && |h.box.messages| <= h.box.limit
    && AllStorable(h.all) && h.upto - h.from <= h.box.limit
    && (forall i :: i in h.promised ==> i < h.upto)
  }

  /** What opening the file would give. */
  predicate OnDisk(h: History)
    requires h.from <= h.upto <= |h.all|
  {
    if h.box.file.Some? then LoadText(h.box.file.value) == Some(h.all[h.from..h.upto]) else h.upto == 0
  }

  predicate Durable(h: History) {
    h.box.hasPath && Indexed(h) && OnDisk(h)
  }

  /** Trimming a queue that is a tail of `all` leaves a tail of `all`. */
  lemma TrimOfTail(all: seq<Message>, front: nat, m: Message, limit: nat)
    requires front <= |all|
    ensures var kept := Trim(all[front..] + [m], limit);
            |kept| <= limit && front <= |all| + 1 - |kept| && kept == (all + [m])[|all| + 1 - |kept|..]
  {
    assert all[front..] + [m] == (all + [m])[front..];
  }

  lemma {:induction false} StoreIndexed(h: History, m: Message, replaced: bool)
    requires h.box.hasPath && Indexed(h) && Storable(m)
    ensures Indexed(Step(h, Stores(m, replaced)))
  {
    var after := Step(h, Stores(m, replaced));
    TrimOfTail(h.all, h.front, m, h.box.limit);
    assert after.box.messages == after.all[after.front..];
  }

  lemma {:induction false} SavedIsOnDisk(s: State, q: seq<Message>)
    requires s.hasPath && s.messages == q && AllStorable(q)
    ensures Save(s, true).file.Some? && LoadText(Save(s, true).file.value) == Some(q)
  {
    SaveLoadRoundTrip(q);
  }

  lemma TailToEnd(all: seq<Message>, from: nat)
    requires from <= |all|
    ensures all[from..] == all[from..|all|]
  {}

  lemma {:induction false} StoreOnDisk(h: History, m: Message, replaced: bool)
    requires Durable(h) && Indexed(Step(h, Stores(m, replaced)))
    ensures OnDisk(Step(h, Stores(m, replaced)))
  {
    var after := Step(h, Stores(m, replaced));
    if replaced {
      TailToEnd(after.all, after.from);
      var q := h.box.messages + [m];
      var kept := Trim(q, h.box.limit);
      var s := h.box.(messages := kept, dropped := h.box.dropped + (|q| - |kept|), dirty := true);
      assert after.box == Save(s, true) && after.box.messages == kept;
      SavedIsOnDisk(s, kept);
    } else {
      assert after.all[h.from..h.upto] == h.all[h.from..h.upto];
    }
  }

  lemma {:induction false} FlushKeeps(h: History, replaced: bool)
    requires Durable(h)
    ensures Durable(Step(h, Flushes(replaced)))
  {
    if h.box.dirty && replaced {
      assert h.all[h.front..|h.all|] == h.box.messages;
      SavedIsOnDisk(h.box, h.box.messages);
    }
  }

  lemma PopKeeps(h: History)
    requires Durable(h)
    ensures Durable(Step(h, Pops))
  {}

  lemma {:induction false} ReopenIs(h: History)
    requires Durable(h)
    ensures Reopen(h.box).messages == h.all[h.from..h.upto]
    ensures Reopen(h.box).file == h.box.file && Reopen(h.box).limit == h.box.limit && Reopen(h.box).hasPath
  {}

  lemma {:induction false} CrashKeeps(h: History)
    requires Durable(h)
    ensures Durable(Step(h, Crashes))
  {
    ReopenIs(h);
    var q := h.all[h.from..h.upto];
    var all := h.all[..h.upto];
    assert all[h.from..] == q && all[h.from..h.upto] == q;
  }

  lemma {:induction false} StepKeeps(h: History, ev: Event)
    requires Durable(h) && (ev.Stores? ==> Storable(ev.m))
    ensures Durable(Step(h, ev))
  {
    match ev
    case Stores(m, replaced) =>
      StoreIndexed(h, m, replaced);
      StoreOnDisk(h, m, replaced);
    case Pops => PopKeeps(h);
    case Flushes(replaced) => FlushKeeps(h, replaced);
    case Crashes => CrashKeeps(h);
  }

  lemma {:induction false} RunsAreDurable(h: History, run: seq<Event>)
    requires Durable(h) && Sane(run)
    ensures Durable(Run(h, run))
    decreases |run|
  {
    if run != [] {
      RunsAreDurable(h, run[..|run| - 1]);
      StepKeeps(Run(h, run[..|run| - 1]), run[|run| - 1]);
    }
  }

  /** `i` is in the reloaded queue, at its place in the order of storing. */
  predicate Reloaded(h: History, i: nat) {
    var q := Reopen(h.box).messages;
    i < |h.all| && h.from <= i < h.from + |q| && q[i - h.from] == h.all[i]
  }

  /** A queue with nothing to write is the one on disk. */
  predicate Clean(h: History) {
    !h.box.dirty ==> h.from == h.front && h.upto == |h.all|
  }

  lemma {:induction false} StepClean(h: History, ev: Event)
    requires Durable(h) && Clean(h)
    ensures Clean(Step(h, ev))
  {}

  lemma {:induction false} RunsAreClean(h: History, run: seq<Event>)
    requires Durable(h) && Clean(h) && Sane(run)
    ensures Clean(Run(h, run))
    decreases |run|
  {
    if run != [] {
      var before := run[..|run| - 1];
      RunsAreDurable(h, before);
      RunsAreClean(h, before);
      StepClean(Run(h, before), run[|run| - 1]);
    }
  }

  /** Over every run: a reload gives back exactly the queue, with nothing popped come
      back, whenever there is nothing to write; and that is so after every store
      and flush that replaced the file. */
  lemma {:induction false} NothingToWriteIsExact(h: History, run: seq<Event>, ev: Event)
    requires Durable(h) && Clean(h) && Sane(run)
    ensures var box := Run(h, run).box; !box.dirty ==> Reopen(box).messages == box.messages
    ensures ev == Flushes(true) || (ev.Stores? && ev.replaced) ==> !Step(Run(h, run), ev).box.dirty
  {
    RunsAreDurable(h, run);
    RunsAreClean(h, run);
    ReopenIs(Run(h, run));
  }

  /** Reloading under any limit, a smaller one than the file was saved under included,
      gives the newest messages and counts the rest as dropped. */
  lemma {:induction false} LoadKeepsNewest(s: State, q: seq<Message>)
    requires s.hasPath && s.file == Some(SaveText(q)) && AllStorable(q)
    ensures var after := Load(s);
            && |after.messages| == (if |q| < s.limit then |q| else s.limit)
            && after.messages == q[|q| - |after.messages|..]
            && after.dropped == s.dropped + |q| - |after.messages| && !after.dirty
  {
    SaveLoadRoundTrip(q);
  }

  /** A store without a path keeps its queue in memory: no file is read or written,
      and every message counts as stored. */
  lemma PathlessIsInMemory(s: State, m: Message, replaced: bool)
    requires !s.hasPath
    ensures Stored(s, replaced) && Store(s, m, replaced).file == s.file && Save(s, replaced) == s && Load(s) == s
    ensures |s.messages| < s.limit ==> Store(s, m, replaced).messages == s.messages + [m]
  {}

  /** Exactly what is reloaded: of what is still in the queue, what had reached
      the file. */
  lemma {:induction false} ReloadedIff(h: History, i: nat)
    requires Durable(h) && h.front <= i < |h.all|
    ensures Reloaded(h, i) <==> i < h.upto
  {
    ReopenIs(h);
  }

  /** The event writes the whole queue to the file. */
  predicate Commits(h: History, ev: Event) {
    match ev
    case Stores(_, replaced) => replaced
    case Flushes(replaced) => replaced && h.box.dirty
    case _ => false
  }

  predicate CommittedSince(h: History, run: seq<Event>) {
    run != [] && (CommittedSince(h, run[..|run| - 1]) || Commits(Run(h, run[..|run| - 1]), run[|run| - 1]))
  }

  predicate NoCrash(run: seq<Event>) {
    forall i :: 0 <= i < |run| ==> !run[i].Crashes?
  }

  lemma {:induction false} StepCommits(h: History, ev: Event)
    requires Durable(h) && !ev.Crashes?
    ensures var g := Step(h, ev);
            && |h.all| <= |g.all| && g.all[..|h.all|] == h.all
            && g.upto == if Commits(h, ev) then |g.all| else h.upto
  {}

  /** A message reaches the file exactly when its own store, or some store or flush
      after it, could replace the file. */
  lemma {:induction false} CommittedIff(h: History, run: seq<Event>, i: nat)
    requires Durable(h) && Sane(run) && NoCrash(run) && i < |h.all|
    ensures Durable(Run(h, run)) && i < |Run(h, run).all|
    ensures i < Run(h, run).upto <==> i < h.upto || CommittedSince(h, run)
    decreases |run|
  {
    if run != [] {
      var before := run[..|run| - 1];
      CommittedIff(h, before, i);
      StepKeeps(Run(h, before), run[|run| - 1]);
      StepCommits(Run(h, before), run[|run| - 1]);
    }
  }

  /** The promise kept and its exact reach: a message stored, then anything short
      of a crash. While it is neither popped nor evicted, opening the file again
      brings it back, in its place, if and only if its own store answered true or
      some later store or flush replaced the file. */
  lemma {:induction false} StoredSurvivesIff(h: History, m: Message, replaced: bool, run: seq<Event>)
    requires Durable(h) && Storable(m) && Sane(run) && NoCrash(run)
    ensures var stored := Step(h, Stores(m, replaced));
            var after := Run(stored, run);
            && |h.all| < |after.all|
            && (after.front <= |h.all| ==>
                  (Reloaded(after, |h.all|) <==> Stored(h.box, replaced) || CommittedSince(stored, run)))
  {
    var stored := Step(h, Stores(m, replaced));
    StepKeeps(h, Stores(m, replaced));
    StepCommits(h, Stores(m, replaced));
    CommittedIff(stored, run, |h.all|);
    var after := Run(stored, run);
    if after.front <= |h.all| {
      ReloadedIff(after, |h.all|);
    }
  }

  lemma PromisedIsReloaded(h: History, i: nat)
    requires Durable(h) && i in h.promised && h.front <= i
    ensures Reloaded(h, i)
  {
    ReopenIs(h);
  }

  /** Over every run of stores, pops, flushes, failed saves and crashes: whatever
      `store` answered true for, and was neither popped nor evicted, is there
      when the file is opened again, and in the order it was stored. */
  lemma {:induction false} PromisedMailSurvives(h: History, run: seq<Event>)
    requires Durable(h) && Sane(run)
    ensures var after := Run(h, run);
            forall i :: i in after.promised && after.front <= i ==> Reloaded(after, i)
  {
    RunsAreDurable(h, run);
    var after := Run(h, run);
    forall i | i in after.promised && after.front <= i ensures Reloaded(after, i) {
      PromisedIsReloaded(after, i);
    }
  }

  lemma EmptyIsDurable(limit: nat)
    ensures Durable(History(State(limit, true, [], 0, false, None), [], 0, 0, 0, {}))
  {}
}
