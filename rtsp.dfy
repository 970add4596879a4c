/** The RTSP text the video clients and the server workers exchange: requests are three
    lines ("METHOD file RTSP/1.0", "CSeq: n", then either the client's RTP port or the
    session), replies are "RTSP/1.0 200 OK", "CSeq: n" and "Session: s". Both sides read
    fields by splitting on line breaks and then on spaces, and a missing field raises
    `IndexError`, which is `None` here. */
module Rtsp {
  import opened Common
  import opened Text

  /** `INIT`, `READY`, `PLAYING`. */
  datatype RtspState = Init | Ready | Playing

  /** `SETUP`, `PLAY`, `PAUSE`, `TEARDOWN`. */
  datatype Method = Setup | Play | Pause | Teardown

  /** The method's word on the request line. */
  function MethodName(m: Method): (r: string)
    ensures |r| > 0 && ' ' !in r && '\n' !in r && 'I' !in r
  {
    match m
    case Setup => "SETUP"
    case Play => "PLAY"
    case Pause => "PAUSE"
    case Teardown => "TEARDOWN"
  }

  /** Different methods have different words. */
  lemma MethodNameInjective(m: Method, n: Method)
    ensures MethodName(m) == MethodName(n) <==> m == n
  {
    if m != n {
      assert MethodName(m)[0] != MethodName(n)[0] || MethodName(m)[1] != MethodName(n)[1];
    }
  }

  /** The clients' guard: SETUP only in INIT, PLAY only in READY, PAUSE only in PLAYING,
      TEARDOWN in any state but INIT. */
  predicate MaySend(s: RtspState, m: Method) {
    match m
    case Setup => s == Init
    case Play => s == Ready
    case Pause => s == Playing
    case Teardown => s != Init
  }

  /** The state a client moves to when its request `m` is answered with 200. */
  function AckedState(m: Method): (r: RtspState)
    ensures r == Init <==> m == Teardown
  {
    match m
    case Setup => Ready
    case Play => Playing
    case Pause => Ready
    case Teardown => Init
  }

  // ---------------------------------------------------------------------------------
  // Requests

  /** The request line. */
  function RequestHead(m: Method, file: string): string {
    MethodName(m) + " " + file + " RTSP/1.0"
  }

  /** The third line: the client's RTP port for SETUP, the session for the others. */
  function RequestLast(m: Method, rtpPort: int, session: string): string {
    if m == Setup then "Transport: RTP/UDP; client_port= " + IntToString(rtpPort) else "Session: " + session
  }

  /** The second line: the sequence number. */
  function RequestSeq(cseq: nat): string {
    "CSeq: " + NatToString(cseq)
  }

  /** `sendRtspRequest`'s text, each line ended by a line break. */
  function RequestText(m: Method, file: string, cseq: nat, rtpPort: int, session: string): string {
    RequestHead(m, file) + "\n" + RequestSeq(cseq) + "\n" + RequestLast(m, rtpPort, session) + "\n"
  }

  /** `text.split('\n')[i].split(' ')[j]`, or `None` where Python raises `IndexError`. */
  function Field(lines: seq<string>, i: nat, j: nat): (r: Option<string>)
    ensures r.Some? ==> i < |lines| && ' ' !in r.value
  {
    if i < |lines| && j < |Split(lines[i], ' ')| then
      SplitNoSep(lines[i], ' ');
      Some(Split(lines[i], ' ')[j])
    else None
  }

  /** `int(lines[i].split(' ')[j])`, or `None` where Python raises `IndexError` or
      `ValueError`. */
  function ReadInt(lines: seq<string>, i: nat, j: nat): (r: Option<int>)
    ensures r.Some? ==> Field(lines, i, j).Some? && ParseInt(Field(lines, i, j).value) == r
  {
    match Field(lines, i, j)
    case None => None
    case Some(w) => ParseInt(w)
  }

  /** A request splits into its three lines and an empty tail; the request line gives back
      the method and the file, and the second line the sequence number. */
  lemma RequestLines(m: Method, file: string, cseq: nat, rtpPort: int, session: string)
    requires ' ' !in file && '\n' !in file && '\n' !in session
    ensures var lines := Split(RequestText(m, file, cseq, rtpPort, session), '\n');
      && lines == [RequestHead(m, file), RequestSeq(cseq), RequestLast(m, rtpPort, session), ""]
      && Field(lines, 0, 0) == Some(MethodName(m))
      && Field(lines, 0, 1) == Some(file)
      && Field(lines, 1, 1) == Some(NatToString(cseq))
  {
    RequestSplit(m, file, cseq, rtpPort, session);
    HeadWords(m, file);
    LabelWords("CSeq: ", "CSeq:", NatToString(cseq));
  }

  /** The request's lines. */
  lemma RequestSplit(m: Method, file: string, cseq: nat, rtpPort: int, session: string)
    requires ' ' !in file && '\n' !in file && '\n' !in session
    ensures Split(RequestText(m, file, cseq, rtpPort, session), '\n') ==
      [RequestHead(m, file), RequestSeq(cseq), RequestLast(m, rtpPort, session), ""]
  {
    var head := RequestHead(m, file);
    var second := RequestSeq(cseq);
    var last := RequestLast(m, rtpPort, session);
    assert RequestText(m, file, cseq, rtpPort, session) == head + "\n" + second + "\n" + last + "\n";
    JoinLinesEnded(head, second, last);
    HeadWords(m, file);
    assert '\n' !in second;
    assert '\n' !in last;
    SplitJoin([head, second, last, ""], '\n');
  }

  /** The request line splits on spaces into the method, the file and the version. */
  lemma HeadWords(m: Method, file: string)
    requires ' ' !in file && '\n' !in file
    ensures Split(RequestHead(m, file), ' ') == [MethodName(m), file, "RTSP/1.0"]
    ensures '\n' !in RequestHead(m, file)
  {
    Join3(MethodName(m), file, "RTSP/1.0", " ");
    assert " RTSP/1.0" == " " + "RTSP/1.0";
    assert RequestHead(m, file) == MethodName(m) + " " + file + " " + "RTSP/1.0";
    SplitJoin([MethodName(m), file, "RTSP/1.0"], ' ');
  }

  /** A line "Label: value" splits on spaces into the label and the value. */
  lemma LabelWords(prefix: string, name: string, value: string)
    requires prefix == name + " " && ' ' !in name && ' ' !in value
    ensures Split(prefix + value, ' ') == [name, value]
  {
    SpacePair(name, value);
  }

  // ---------------------------------------------------------------------------------
  // Replies

  /** `replyRtsp(OK_200, ...)`'s text: no line break after the session. */
  function ReplyText(cseq: string, session: string): string {
    "RTSP/1.0 200 OK\nCSeq: " + cseq + "\nSession: " + session
  }

  /** A reply splits into its three lines, whose second words are the status code, the
      sequence number and the session. */
  lemma ReplyLines(cseq: string, session: string)
    requires ' ' !in cseq && '\n' !in cseq && ' ' !in session && '\n' !in session
    ensures var lines := Split(ReplyText(cseq, session), '\n');
      && lines == ["RTSP/1.0 200 OK", "CSeq: " + cseq, "Session: " + session]
      && Field(lines, 0, 1) == Some("200")
      && Field(lines, 1, 1) == Some(cseq)
      && Field(lines, 2, 1) == Some(session)
  {
    ReplySplit(cseq, session);
    StatusWords();
    LabelWords("CSeq: ", "CSeq:", cseq);
    LabelWords("Session: ", "Session:", session);
  }

  /** The reply's lines. */
  lemma ReplySplit(cseq: string, session: string)
    requires '\n' !in cseq && '\n' !in session
    ensures Split(ReplyText(cseq, session), '\n') == ["RTSP/1.0 200 OK", "CSeq: " + cseq, "Session: " + session]
  {
    var parts := ["RTSP/1.0 200 OK", "CSeq: " + cseq, "Session: " + session];
    Join3("RTSP/1.0 200 OK", "CSeq: " + cseq, "Session: " + session, "\n");
    assert "RTSP/1.0 200 OK\nCSeq: " == "RTSP/1.0 200 OK" + "\n" + "CSeq: ";
    assert "\nSession: " == "\n" + "Session: ";
    assert ReplyText(cseq, session) == Join(parts, "\n");
    assert '\n' !in parts[0];
    assert '\n' !in parts[1];
    assert '\n' !in parts[2];
    SplitJoin(parts, '\n');
  }

  /** The status line's words. */
  lemma StatusWords()
    ensures Split("RTSP/1.0 200 OK", ' ') == ["RTSP/1.0", "200", "OK"]
  {
    Join3("RTSP/1.0", "200", "OK", " ");
    assert "RTSP/1.0 200 OK" == "RTSP/1.0" + " " + "200" + " " + "OK";
    SplitJoin(["RTSP/1.0", "200", "OK"], ' ');
  }

  /** The status word of a 200 reply reads as 200. */
  lemma Status200()
    ensures ParseInt("200") == Some(200)
  {
    assert NatToString(200) == "200";
    ParseNatToString(200);
  }

  /** A text without the first character of `sub` does not contain `sub`. */
  lemma {:induction false} MissingFirst(s: string, sub: string)
    requires |sub| > 0 && sub[0] !in s
    ensures !Contains(s, sub)
    decreases |s|
  {
    if |s| > 0 {
      assert s[0] in s;
      assert forall c | c in s[1..] :: c in s;
      MissingFirst(s[1..], sub);
    }
  }
}
