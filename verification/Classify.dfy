/**
 The table of response ids of at_response.c and the classification of at_read.c, which
 drops a response from the ring together with what terminates it.
 */
module Classify {
  import opened Search
  import opened WrapSearch
  import opened RingCells
  import opened RingBuffer
  import opened AtRead

  datatype Res =
    | UNKNOWN | BOOT | BUSY | CEND | CMGR | CMS_ERROR | CMTI | CNUM | CONF | CONN | COPS | CPIN | CREG | CSQ
    | CSSI | CSSU | CUSD | ERROR | MODE | NO_CARRIER | NO_DIALTONE | OK | ORIG | RING | RSSI | SMMEMFULL
    | SMS_PROMPT | SRVST | CVOICE | CMGS | CPMS | CSCA | CLCC | CCWA

  datatype Response = Response(res: Res, id: string)

  const TABLE: seq<Response> := [
    Response(BOOT, "^BOOT:"), Response(BUSY, "BUSY\r"), Response(CEND, "^CEND:"),
    Response(CMGR, "+CMGR:"), Response(CMS_ERROR, "+CMS ERROR:"), Response(CMTI, "+CMTI:"),
    Response(CNUM, "+CNUM:"), Response(CONF, "^CONF:"), Response(CONN, "^CONN:"),
    Response(COPS, "+COPS:"), Response(CPIN, "+CPIN:"), Response(CREG, "+CREG:"),
    Response(CSQ, "+CSQ:"), Response(CSSI, "+CSSI:"), Response(CSSU, "+CSSU:"),
    Response(CUSD, "+CUSD:"), Response(ERROR, "ERROR\r"), Response(MODE, "^MODE:"),
    Response(NO_CARRIER, "NO CARRIER\r"), Response(NO_DIALTONE, "NO DIALTONE\r"), Response(OK, "OK\r"),
    Response(ORIG, "^ORIG:"), Response(RING, "RING\r"), Response(RSSI, "^RSSI:"),
    Response(SMMEMFULL, "^SMMEMFULL:"), Response(SMS_PROMPT, "> "), Response(SRVST, "^SRVST:"),
    Response(CVOICE, "^CVOICE:"), Response(CMGS, "+CMGS:"), Response(CPMS, "+CPMS:"),
    Response(CSCA, "+CSCA:"), Response(CLCC, "+CLCC:"), Response(CCWA, "+CCWA:"),
    Response(CNUM, "ERROR+CNUM:"), Response(ERROR, "COMMAND NOT SUPPORT\r")
  ]

  /** The first entry from `idx` on that the content starts with. */
  function Matched(table: seq<Response>, c: string, idx: nat): Res
    requires idx <= |table|
    decreases |table| - idx
  {
    if idx == |table| then UNKNOWN
    else if Starts(table[idx].id, c) then table[idx].res
    else Matched(table, c, idx + 1)
  }

  /** The loop over the table. */
  method MatchTable(rb: RingBuffer<char>, table: seq<Response>) returns (res: Res)
    requires rb.Valid() && forall r <- table :: r.id != []
    ensures res == Matched(table, rb.Content(), 0)
  {
    res := UNKNOWN;
    var idx := 0;
    while idx < |table|
      invariant idx <= |table| && res == UNKNOWN
      invariant Matched(table, rb.Content(), 0) == Matched(table, rb.Content(), idx)
    {
      var cmp := rb.MemCmp(table[idx].id);
      if cmp == 0 {
        res := table[idx].res;
        break;
      }
      idx := idx + 1;
    }
  }

  lemma {:induction false} MatchedHas(table: seq<Response>, c: string, idx: nat) returns (k: nat)
    requires idx <= |table|
    ensures var r := Matched(table, c, idx);
            if k == |table| then r == UNKNOWN else idx <= k < |table| && table[k].res == r && Starts(table[k].id, c)
    decreases |table| - idx
  {
    if idx == |table| || Starts(table[idx].id, c) {
      k := idx;
    } else {
      k := MatchedHas(table, c, idx + 1);
    }
  }

  function Classified(c: string): Res {
    Matched(TABLE, c, 0)
  }

  // ---------- each response by its text ----------

  /** What a response starts with. */
  predicate Announces(r: Res, c: string) {
    CaretAnnounces(r, c) || PlusAnnounces(r, c) || WordAnnounces(r, c)
  }

  predicate CaretAnnounces(r: Res, c: string) {
    match r
    case BOOT => Starts("^BOOT:", c)
    case CEND => Starts("^CEND:", c)
    case CONF => Starts("^CONF:", c)
    case CONN => Starts("^CONN:", c)
    case MODE => Starts("^MODE:", c)
    case ORIG => Starts("^ORIG:", c)
    case RSSI => Starts("^RSSI:", c)
    case SMMEMFULL => Starts("^SMMEMFULL:", c)
    case SRVST => Starts("^SRVST:", c)
    case CVOICE => Starts("^CVOICE:", c)
    case _ => false
  }

  predicate PlusAnnounces(r: Res, c: string) {
    match r
    case CMGR => Starts("+CMGR:", c)
    case CMS_ERROR => Starts("+CMS ERROR:", c)
    case CMTI => Starts("+CMTI:", c)
    case CNUM => Starts("+CNUM:", c)
    case COPS => Starts("+COPS:", c)
    case CPIN => Starts("+CPIN:", c)
    case CREG => Starts("+CREG:", c)
    case CSQ => Starts("+CSQ:", c)
    case CSSI => Starts("+CSSI:", c)
    case CSSU => Starts("+CSSU:", c)
    case CUSD => Starts("+CUSD:", c)
    case CMGS => Starts("+CMGS:", c)
    case CPMS => Starts("+CPMS:", c)
    case CSCA => Starts("+CSCA:", c)
    case CLCC => Starts("+CLCC:", c)
    case CCWA => Starts("+CCWA:", c)
    case _ => false
  }

  predicate WordAnnounces(r: Res, c: string) {
    match r
    case BUSY => Starts("BUSY\r", c)
    case ERROR => Starts("ERROR\r", c) || Starts("COMMAND NOT SUPPORT\r", c)
    case NO_CARRIER => Starts("NO CARRIER\r", c)
    case NO_DIALTONE => Starts("NO DIALTONE\r", c)
    case OK => Starts("OK\r", c)
    case RING => Starts("RING\r", c)
    case SMS_PROMPT => Starts("> ", c)
    case CNUM => Starts("ERROR+CNUM:", c)
    case _ => false
  }

  function At(c: string, k: nat): char {
    if k < |c| then c[k] else 0 as char
  }

  /** The one response a text can be about, by as few of its characters as tell them apart. */
  function About(c: string): Res {
    if At(c, 0) == '^' then AboutCaret(c) else if At(c, 0) == '+' then AboutPlus(c) else AboutWord(c)
  }

  function AboutCaret(c: string): Res {
    if At(c, 1) == 'B' then BOOT
    else if At(c, 1) == 'C' then (if At(c, 2) == 'E' then CEND
      else if At(c, 2) == 'O' then (if At(c, 4) == 'F' then CONF
        else CONN)
      else CVOICE)
    else if At(c, 1) == 'M' then MODE
    else if At(c, 1) == 'O' then ORIG
    else if At(c, 1) == 'R' then RSSI
    else (if At(c, 2) == 'M' then SMMEMFULL
      else SRVST)
  }

  function AboutPlus(c: string): Res {
    if At(c, 2) == 'M' then (if At(c, 3) == 'G' then (if At(c, 4) == 'R' then CMGR
        else CMGS)
      else if At(c, 3) == 'S' then CMS_ERROR
      else CMTI)
    else if At(c, 2) == 'N' then CNUM
    else if At(c, 2) == 'O' then COPS
    else if At(c, 2) == 'P' then (if At(c, 3) == 'I' then CPIN
      else CPMS)
    else if At(c, 2) == 'R' then CREG
    else if At(c, 2) == 'S' then (if At(c, 3) == 'Q' then CSQ
      else if At(c, 3) == 'S' then (if At(c, 4) == 'I' then CSSI
        else CSSU)
      else CSCA)
    else if At(c, 2) == 'U' then CUSD
    else if At(c, 2) == 'L' then CLCC
    else CCWA
  }

  function AboutWord(c: string): Res {
    if At(c, 0) == 'B' then BUSY
    else if At(c, 0) == 'E' then (if At(c, 5) == '\r' then ERROR
      else CNUM)
    else if At(c, 0) == 'N' then (if At(c, 3) == 'C' then NO_CARRIER
      else NO_DIALTONE)
    else if At(c, 0) == 'O' then OK
    else if At(c, 0) == 'R' then RING
    else if At(c, 0) == '>' then SMS_PROMPT
    else ERROR
  }

  lemma CaretOnly(r: Res, c: string)
    requires CaretAnnounces(r, c)
    ensures About(c) == r
  {
    hide AboutPlus, AboutWord;
  }

  lemma PlusOnly(r: Res, c: string)
    requires PlusAnnounces(r, c)
    ensures About(c) == r
  {
    hide AboutCaret, AboutWord;
  }

  lemma WordOnly(r: Res, c: string)
    requires WordAnnounces(r, c)
    ensures About(c) == r
  {
    hide AboutCaret, AboutPlus;
  }

  /** Only one of them can be at the front. */
  lemma AboutOnly(r: Res, c: string)
    requires Announces(r, c)
    ensures About(c) == r && r != UNKNOWN
  {
    hide About;
    if CaretAnnounces(r, c) {
      CaretOnly(r, c);
    } else if PlusAnnounces(r, c) {
      PlusOnly(r, c);
    } else {
      WordOnly(r, c);
    }
  }

  lemma Entries0(c: string, j: nat)
    requires 0 <= j < 9 && Starts(TABLE[j].id, c)
    ensures Announces(TABLE[j].res, c)
  {
    hide Starts;
  }

  lemma Entries9(c: string, j: nat)
    requires 9 <= j < 18 && Starts(TABLE[j].id, c)
    ensures Announces(TABLE[j].res, c)
  {
    hide Starts;
  }

  lemma Entries18(c: string, j: nat)
    requires 18 <= j < 27 && Starts(TABLE[j].id, c)
    ensures Announces(TABLE[j].res, c)
  {
    hide Starts;
  }

  lemma Entries27(c: string, j: nat)
    requires 27 <= j < 35 && Starts(TABLE[j].id, c)
    ensures Announces(TABLE[j].res, c)
  {
    hide Starts;
  }

  lemma EntryAnnounces(c: string, j: nat)
    requires j < |TABLE| && Starts(TABLE[j].id, c)
    ensures Announces(TABLE[j].res, c) && TABLE[j].res != UNKNOWN
  {
    hide Starts;
    assert |TABLE| == 35;
    if j < 9 {
      Entries0(c, j);
    } else if j < 18 {
      Entries9(c, j);
    } else if j < 27 {
      Entries18(c, j);
    } else {
      Entries27(c, j);
    }
  }

  function CaretEntry(r: Res, c: string): nat {
    match r
    case BOOT => 0
    case CEND => 2
    case CONF => 7
    case CONN => 8
    case MODE => 17
    case ORIG => 21
    case RSSI => 23
    case SMMEMFULL => 24
    case SRVST => 26
    case CVOICE => 27
    case _ => 0
  }

  function PlusEntry(r: Res, c: string): nat {
    match r
    case CMGR => 3
    case CMS_ERROR => 4
    case CMTI => 5
    case CNUM => 6
    case COPS => 9
    case CPIN => 10
    case CREG => 11
    case CSQ => 12
    case CSSI => 13
    case CSSU => 14
    case CUSD => 15
    case CMGS => 28
    case CPMS => 29
    case CSCA => 30
    case CLCC => 31
    case CCWA => 32
    case _ => 0
  }

  function WordEntry(r: Res, c: string): nat {
    match r
    case BUSY => 1
    case ERROR => if Starts("ERROR\r", c) then 16 else 34
    case NO_CARRIER => 18
    case NO_DIALTONE => 19
    case OK => 20
    case RING => 22
    case SMS_PROMPT => 25
    case CNUM => 33
    case _ => 0
  }

  lemma CaretListedEarly(r: Res, c: string)
    requires CaretAnnounces(r, c) && CaretEntry(r, c) < 18
    ensures CaretEntry(r, c) < |TABLE| && Starts(TABLE[CaretEntry(r, c)].id, c)
  {
    hide Starts;
  }

  lemma CaretListedLate(r: Res, c: string)
    requires CaretAnnounces(r, c) && CaretEntry(r, c) >= 18
    ensures CaretEntry(r, c) < |TABLE| && Starts(TABLE[CaretEntry(r, c)].id, c)
  {
    hide Starts;
  }

  lemma CaretListed(r: Res, c: string)
    requires CaretAnnounces(r, c)
    ensures CaretEntry(r, c) < |TABLE| && Starts(TABLE[CaretEntry(r, c)].id, c)
  {
    hide Starts, CaretAnnounces, CaretEntry;
    if CaretEntry(r, c) < 18 {
      CaretListedEarly(r, c);
    } else {
      CaretListedLate(r, c);
    }
  }

  lemma PlusListedEarly(r: Res, c: string)
    requires PlusAnnounces(r, c) && PlusEntry(r, c) < 12
    ensures PlusEntry(r, c) < |TABLE| && Starts(TABLE[PlusEntry(r, c)].id, c)
  {
    hide Starts;
  }

  lemma PlusListedLate(r: Res, c: string)
    requires PlusAnnounces(r, c) && PlusEntry(r, c) >= 12
    ensures PlusEntry(r, c) < |TABLE| && Starts(TABLE[PlusEntry(r, c)].id, c)
  {
    hide Starts;
  }

  lemma PlusListed(r: Res, c: string)
    requires PlusAnnounces(r, c)
    ensures PlusEntry(r, c) < |TABLE| && Starts(TABLE[PlusEntry(r, c)].id, c)
  {
    hide Starts, PlusAnnounces, PlusEntry;
    if PlusEntry(r, c) < 12 {
      PlusListedEarly(r, c);
    } else {
      PlusListedLate(r, c);
    }
  }

  lemma WordListedEarly(r: Res, c: string)
    requires WordAnnounces(r, c) && WordEntry(r, c) < 19
    ensures WordEntry(r, c) < |TABLE| && Starts(TABLE[WordEntry(r, c)].id, c)
  {
    hide Starts;
  }

  lemma WordListedLate(r: Res, c: string)
    requires WordAnnounces(r, c) && WordEntry(r, c) >= 19
    ensures WordEntry(r, c) < |TABLE| && Starts(TABLE[WordEntry(r, c)].id, c)
  {
    hide Starts;
  }

  lemma WordListed(r: Res, c: string)
    requires WordAnnounces(r, c)
    ensures WordEntry(r, c) < |TABLE| && Starts(TABLE[WordEntry(r, c)].id, c)
  {
    hide Starts, WordAnnounces, WordEntry;
    if WordEntry(r, c) < 19 {
      WordListedEarly(r, c);
    } else {
      WordListedLate(r, c);
    }
  }

  lemma AnnouncedListed(r: Res, c: string) returns (j: nat)
    requires Announces(r, c)
    ensures j < |TABLE| && Starts(TABLE[j].id, c)
  {
    hide Starts, CaretAnnounces, PlusAnnounces, WordAnnounces, CaretEntry, PlusEntry, WordEntry;
    if CaretAnnounces(r, c) {
      CaretListed(r, c);
      j := CaretEntry(r, c);
    } else if PlusAnnounces(r, c) {
      PlusListed(r, c);
      j := PlusEntry(r, c);
    } else {
      WordListed(r, c);
      j := WordEntry(r, c);
    }
  }

  /** The search through the table gives the one response whose text is at the front, or none if there is none. */
  lemma ClassifiedIs(c: string, r: Res)
    ensures Classified(c) == r <==> if r.UNKNOWN? then forall s: Res :: !Announces(s, c) else Announces(r, c)
  {
    hide Starts, Announces, About;
    var k := MatchedHas(TABLE, c, 0);
    forall s: Res | Announces(s, c)
      ensures Classified(c) == s && s != UNKNOWN
    {
      var j := AnnouncedListed(s, c);
      AboutOnly(s, c);
      if k == |TABLE| {
        forall i | 0 <= i < |TABLE| && Starts(TABLE[i].id, c)
          ensures TABLE[i].res != UNKNOWN
        {
          EntryAnnounces(c, i);
        }
        NoneMatched(TABLE, c, 0, j);
      } else {
        EntryAnnounces(c, k);
        AboutOnly(TABLE[k].res, c);
      }
    }
    if k < |TABLE| {
      EntryAnnounces(c, k);
    }
  }

  lemma {:induction false} NoneMatched(table: seq<Response>, c: string, idx: nat, j: nat)
    requires idx <= j < |table| && Starts(table[j].id, c)
    requires forall k :: 0 <= k < |table| && Starts(table[k].id, c) ==> table[k].res != UNKNOWN
    ensures Matched(table, c, idx) != UNKNOWN
    decreases j - idx
  {
    if idx < j && !Starts(table[idx].id, c) {
      NoneMatched(table, c, idx + 1, j);
    }
  }

  /** The three responses with a length of their own. */
  lemma SpecialIds(c: string)
    ensures Classified(c) == CMGR <==> Starts("+CMGR:", c)
    ensures Classified(c) == CSSI <==> Starts("+CSSI:", c)
    ensures Classified(c) == SMS_PROMPT <==> Starts("> ", c)
  {
    hide Starts, Classified;
    ClassifiedIs(c, CMGR);
    ClassifiedIs(c, CSSI);
    ClassifiedIs(c, SMS_PROMPT);
  }

  lemma IdsThere(j: nat)
    requires j < |TABLE|
    ensures TABLE[j].id != []
  {
  }

  // ---------- dropping a response ----------

  /** How many elements are dropped for a frame of `len`. */
  function Length(res: Res, len: nat): nat {
    match res
    case SMS_PROMPT => 2
    case CMGR => len + 7
    case CSSI => 8
    case _ => len + 1
  }

  /** `at_read_result_classification`. */
  method ReadClassification(rb: RingBuffer<char>, len: nat) returns (res: Res, ghost n: nat)
    requires rb.Valid() && rb.size > 0
    modifies rb
    ensures rb.Valid() && res == Classified(old(rb.Content()))
    ensures n == if Length(res, len) < old(rb.used) then Length(res, len) else old(rb.used)
    ensures rb.Content() == old(rb.Content())[n..]
    ensures rb.read == ReadAfter(rb.size, old(rb.read), n, rb.used)
  {
    forall r | r in TABLE ensures r.id != [] {
      var j :| 0 <= j < |TABLE| && TABLE[j] == r;
      IdsThere(j);
    }
    res := MatchTable(rb, TABLE);
    n := rb.ReadUpd(Length(res, len));
  }

  /** The length of what follows a frame and terminates it. */
  function Terminator(c: string): (n: nat)
  {
    if Starts("> ", c) || Starts("+CSSI:", c) then 0 else if Starts("+CMGR:", c) then 7 else 1
  }

  /** `end` is what terminates the response `frame`. */
  ghost predicate Ends(frame: string, end: string) {
    if Starts("> ", frame) then frame == "> " && end == ""
    else if Starts("+CSSI:", frame) then |frame| == 8 && end == ""
    else if Starts("+CMGR:", frame) then |end| == |OK_TAIL| && end[0] == '\n'
    else end == "\n"
  }

  /** The front of `c` is a whole response of length `frame` with all that terminates it. */
  ghost predicate Complete(c: string, frame: int) {
    && 0 < frame && frame + Terminator(c) <= |c|
    && Ends(c[..frame], c[frame..frame + Terminator(c)])
  }

  lemma StartsPrefix(text: string, c: string, k: nat)
    requires k <= |c|
    ensures Starts(text, c[..k]) <==> |text| <= k && Starts(text, c)
  {
    if |text| <= k {
      assert c[..k][..|text|] == c[..|text|];
    }
  }

  lemma PromptComplete(c: string)
    requires Starts("> ", c)
    ensures Complete(c, 2)
  {
    assert c[..2] == "> ";
  }

  lemma NotificationComplete(c: string)
    requires Starts("+CSSI:", c) && 8 <= |c|
    ensures Complete(c, 8)
  {
    assert c[0] == '+';
    StartsPrefix("> ", c, 8);
    StartsPrefix("+CSSI:", c, 8);
  }

  lemma MultilineComplete(c: string, k: nat)
    requires Multiline(c) && 6 <= k && k + 7 <= |c| && c[k] == '\n'
    ensures Complete(c, k)
  {
    assert c[0] != '>' && c[2] != 'S';
    StartsPrefix("> ", c, k);
    StartsPrefix("+CSSI:", c, k);
    StartsPrefix("+CMGR:", c, k);
  }

  lemma LineComplete(c: string, k: nat)
    requires !Multiline(c) && !Starts("> ", c) && !Starts("+CSSI:", c)
    requires 0 < k < |c| && c[k] == '\n'
    ensures Complete(c, k)
  {
    StartsPrefix("> ", c, k);
    StartsPrefix("+CSSI:", c, k);
    StartsPrefix("+CMGR:", c, k);
  }

  /** What the framer delivers has what terminates it behind it; of a multi-line response this says little. */
  lemma FrameComplete(c: string, room: nat, beyond: string)
    requires |beyond| >= OK_SPAN
    ensures var k := FrameAt(c, room, beyond); k == -1 || Complete(c, k)
  {
    var k := FrameAt(c, room, beyond);
    if k != -1 {
      if Starts("+CSSI:", c) {
        NotificationComplete(c);
      } else if Starts("> ", c) {
        PromptComplete(c);
      } else if Multiline(c) {
        MultilineEnd(c, room, beyond);
        MultilineComplete(c, k);
      } else {
        FindFromIsFirst(c, CRLF, 0);
        assert c[k] == c[k - 1..k + 1][1];
        LineComplete(c, k);
      }
    }
  }

  /** The end of a response in a ring is found as `memmem` would: what `OkTailExact` asks for. */
  ghost predicate EndSeen(c: string, room: nat, beyond: string)
    requires |beyond| >= OK_SPAN
  {
    var cut := if room < |c| then room else |c|;
    Find(c[..cut], OK_TAIL) != -1 || !Confused(c[..cut], c[cut..], 7, OK_TAIL + beyond)
  }

  /**
   A multi-line response is delivered up to its first end, and not at all before that is there, iff the
   end is seen; of `+CMGR:` the classification then drops this very end with the response.
   */
  lemma MessageComplete(c: string, room: nat, beyond: string)
    requires Starts("+CMGR:", c) || Starts("+CNUM:", c) || Starts("ERROR+CNUM:", c) || Starts("+CLCC:", c)
    requires |beyond| >= OK_SPAN
    ensures var k := FrameAt(c, room, beyond);
            && (IsFirst(c, OK_TAIL, 0, k) <==> EndSeen(c, room, beyond))
            && (EndSeen(c, room, beyond) && k != -1 && Starts("+CMGR:", c) ==>
                  k + Terminator(c) <= |c| && c[k..k + Terminator(c)] == OK_TAIL)
  {
    assert c[0] != '>' && c[2] != 'S';
    OkTailExact(c, room, beyond);
    var k := FrameAt(c, room, beyond);
    FindIs(c, OK_TAIL, k);
    hide Confused, Find, FoundIn;
  }

  /** The classification drops a complete response: the frame and what terminates it, nothing more. */
  lemma CompleteLength(c: string, frame: nat)
    requires Complete(c, frame)
    ensures Length(Classified(c), frame) == frame + Terminator(c)
  {
    SpecialIds(c);
    SpecialLengths(c, frame);
    SpecialStarts(c);
    hide Classified, Complete, Starts;
  }

  lemma SpecialLengths(c: string, frame: nat)
    requires Complete(c, frame)
    ensures Starts("> ", c) ==> frame == 2
    ensures Starts("+CSSI:", c) ==> frame == 8
  {
    StartsPrefix("> ", c, frame);
    StartsPrefix("+CSSI:", c, frame);
    StartsPrefix("+CMGR:", c, frame);
    SpecialStarts(c);
    SpecialStarts(c[..frame]);
    hide Starts;
  }

  /** Only one of the three texts can be at the front. */
  lemma SpecialStarts(c: string)
    ensures Starts("> ", c) ==> !Starts("+CSSI:", c) && !Starts("+CMGR:", c)
    ensures Starts("+CSSI:", c) ==> !Starts("+CMGR:", c)
  {
    if Starts("> ", c) {
      assert c[0] == '>';
    } else if Starts("+CSSI:", c) {
      assert c[2] == 'S';
    }
  }
}
