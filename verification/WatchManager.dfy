/** The list/watch loop of one informer and the client stream under it, between awaits. */
module WatchManager {
  import opened Wrappers
  import opened Store
  import opened Informer

  // ----- the client stream -----

  /** An exception as the `except` clauses see it: WatchExpired is itself an APIError. */
  datatype Error = WatchExpired | TimedOut | ApiError(status: Option<int>) | OtherError {
    predicate IsApiError() { WatchExpired? || ApiError? }
    function StatusCode(): Option<int> requires IsApiError() { if WatchExpired? then Some(410) else status }
  }

  /** The reason of an error line, as far as anybody looks at it. */
  datatype Reason = Expired | Gone | Unrelated

  /** One line of a watch response; garbage cannot be decoded. */
  datatype Line =
    | ErrorLine(code: Option<int>, reason: Reason, failure: bool)
    | BookmarkLine(version: Option<nat>)
    | EventLine(kind: EventType, obj: Object)
    | Garbage

  /** What the stream does next: yield, read on, raise, or connect again, at once or after a delay. */
  datatype Next = Yield | Connected | Raise(error: Error) | Restart | Retry

  predicate ClientError(code: int) { 400 <= code < 500 && code !in {408, 429} }

  /** The answer to a (re)connect; the cursor is the version to resume from, None for "now". */
  function OnStatus(cursor: Option<nat>, raiseOnExpired: bool, code: int): (Option<nat>, Next) {
    if code == 410 then (if raiseOnExpired then (cursor, Raise(WatchExpired)) else (None, Restart))
    else if 200 <= code < 300 then (cursor, Connected)
    else if ClientError(code) then (cursor, Raise(ApiError(Some(code))))
    else (cursor, Retry)
  }

  function OnLine(cursor: Option<nat>, raiseOnExpired: bool, line: Line): (Option<nat>, Next) {
    match line
    case ErrorLine(code, reason, failure) =>
      if raiseOnExpired && (code == Some(410) || reason != Unrelated) then (cursor, Raise(WatchExpired))
      else if code.Some? && ClientError(code.value) && code.value != 410 then (cursor, Raise(ApiError(code)))
      else if failure && reason == Expired then (None, Restart)
      else (cursor, Retry)
    case BookmarkLine(version) => (if version.Some? then version else cursor, Yield)
    case EventLine(_, obj) => (if obj.version != 0 then Some(obj.version) else cursor, Yield)
    case Garbage => (cursor, Raise(OtherError))
  }

  /** Everything the network can do to the stream. */
  datatype Input = Answer(code: int) | Text(line: Line) | EndOfResponse | TransportFailure

  function OnInput(cursor: Option<nat>, raiseOnExpired: bool, input: Input): (Option<nat>, Next) {
    match input
    case Answer(code) => OnStatus(cursor, raiseOnExpired, code)
    case Text(line) => OnLine(cursor, raiseOnExpired, line)
    case EndOfResponse => (cursor, Restart)
    case TransportFailure => (cursor, Retry)
  }

  /** The version to resume from and, once raised, the exception that ended the stream. */
  datatype Stream = Stream(cursor: Option<nat>, error: Option<Error>)

  function Read(s: Stream, raiseOnExpired: bool, input: Input): Stream {
    if s.error.Some? then s
    else
      var (cursor, next) := OnInput(s.cursor, raiseOnExpired, input);
      Stream(cursor, if next.Raise? then Some(next.error) else None)
  }

  function ReadAll(start: Option<nat>, raiseOnExpired: bool, inputs: seq<Input>): Stream {
    if inputs == [] then Stream(start, None)
    else Read(ReadAll(start, raiseOnExpired, inputs[..|inputs| - 1]), raiseOnExpired, inputs[|inputs| - 1])
  }

  class WatchClient {
    const raiseOnExpired: bool
    var cursor: Option<nat>
    var retries: nat

    constructor (cursor: Option<nat>, raiseOnExpired: bool)
      ensures this.cursor == cursor && this.raiseOnExpired == raiseOnExpired && retries == 0
    {
      this.cursor, this.raiseOnExpired, retries := cursor, raiseOnExpired, 0;
    }

    method Respond(code: int) returns (next: Next)
      modifies this
      ensures (cursor, next) == OnStatus(old(cursor), raiseOnExpired, code)
      ensures retries == match next case Connected => 0 case Retry => old(retries) + 1 case _ => old(retries)
    {
      if code == 410 {
        if raiseOnExpired { return Raise(WatchExpired); }
        cursor := None;
        return Restart;
      }
      if 200 <= code < 300 { retries := 0; return Connected; }
      if code == 404 { return Raise(ApiError(Some(404))); }
      if ClientError(code) { return Raise(ApiError(Some(code))); }
      retries := retries + 1;
      next := Retry;
    }

    method ReadLine(line: Line) returns (next: Next)
      modifies this
      ensures (cursor, next) == OnLine(old(cursor), raiseOnExpired, line)
      ensures retries == if next.Retry? then old(retries) + 1 else old(retries)
    {
      match line
      case ErrorLine(code, reason, failure) =>
        if raiseOnExpired && (code == Some(410) || reason != Unrelated) { return Raise(WatchExpired); }
        if code.Some? && ClientError(code.value) && code.value != 410 { return Raise(ApiError(code)); }
        if failure && reason == Expired {
          cursor := None;
          return Restart;
        }
        retries := retries + 1;
        next := Retry;
      case BookmarkLine(version) =>
        if version.Some? { cursor := version; }
        next := Yield;
      case EventLine(_, obj) =>
        if obj.version != 0 { cursor := Some(obj.version); }
        next := Yield;
      case Garbage => next := Raise(OtherError);
    }

    method Take(input: Input) returns (next: Next)
      modifies this
      ensures (cursor, next) == OnInput(old(cursor), raiseOnExpired, input)
    {
      match input
      case Answer(code) => next := Respond(code);
      case Text(line) => next := ReadLine(line);
      case EndOfResponse => next := Restart;
      case TransportFailure =>
        retries := retries + 1;
        next := Retry;
    }

    /** The stream's loop, on everything the network does to it until it raises. */
    method Watch(inputs: seq<Input>) returns (error: Option<Error>)
      modifies this
      ensures Stream(cursor, error) == ReadAll(old(cursor), raiseOnExpired, inputs)
    {
      error := None;
      for i := 0 to |inputs|
        invariant error.None? && Stream(cursor, None) == ReadAll(old(cursor), raiseOnExpired, inputs[..i])
      {
        var next := Take(inputs[i]);
        assert inputs[..i + 1][..i] == inputs[..i];
        if next.Raise? {
          RaisedStays(old(cursor), raiseOnExpired, inputs, i + 1);
          return Some(next.error);
        }
      }
      assert inputs[..|inputs|] == inputs;
    }
  }

  lemma {:induction false} RaisedStays(start: Option<nat>, raiseOnExpired: bool, inputs: seq<Input>, n: nat)
    requires n <= |inputs| && ReadAll(start, raiseOnExpired, inputs[..n]).error.Some?
    ensures ReadAll(start, raiseOnExpired, inputs) == ReadAll(start, raiseOnExpired, inputs[..n])
    decreases |inputs|
  {
    if n == |inputs| {
      assert inputs[..n] == inputs;
    } else {
      var shorter := inputs[..|inputs| - 1];
      assert shorter[..n] == inputs[..n];
      RaisedStays(start, raiseOnExpired, shorter, n);
    }
  }

  // ----- what a stream resumes from -----

  /** The version an input carries. */
  function Mark(input: Input): Option<nat> {
    match input
    case Text(BookmarkLine(version)) => version
    case Text(EventLine(_, obj)) => if obj.version != 0 then Some(obj.version) else None
    case _ => None
  }

  function Code(input: Input): Option<int> {
    match input
    case Answer(code) => Some(code)
    case Text(ErrorLine(code, _, _)) => code
    case _ => None
  }

  /** The server no longer has the history to resume from. */
  predicate SaysExpired(input: Input) {
    Code(input) == Some(410) || (input.Text? && input.line.ErrorLine? && input.line.reason != Unrelated)
  }

  predicate SaysClientError(input: Input) {
    Code(input).Some? && ClientError(Code(input).value) && Code(input).value != 410
  }

  /** The expiry on which a stream that does not raise starts over from "now". */
  predicate Forgets(input: Input) {
    || input == Answer(410)
    || (&& input.Text? && input.line.ErrorLine? && input.line.failure && input.line.reason == Expired
        && !SaysClientError(input))
  }

  /** The exception an input raises. */
  function Failure(raiseOnExpired: bool, input: Input): Option<Error> {
    if raiseOnExpired && SaysExpired(input) then Some(WatchExpired)
    else if SaysClientError(input) then Some(ApiError(Code(input)))
    else if input == Text(Garbage) then Some(OtherError)
    else None
  }

  predicate Smooth(raiseOnExpired: bool, inputs: seq<Input>) {
    forall input <- inputs :: Failure(raiseOnExpired, input).None?
  }

  predicate Moves(input: Input) { Mark(input).Some? || Forgets(input) }

  predicate Unmarked(inputs: seq<Input>) { forall input <- inputs :: !Moves(input) }

  /** Input i raises, and nothing before it does. */
  ghost predicate EndsAt(start: Option<nat>, raiseOnExpired: bool, inputs: seq<Input>, end: Stream, i: nat) {
    && i < |inputs| && Smooth(raiseOnExpired, inputs[..i])
    && end == Stream(ReadAll(start, raiseOnExpired, inputs[..i]).cursor, Failure(raiseOnExpired, inputs[i]))
  }

  lemma ReadRaises(s: Stream, raiseOnExpired: bool, input: Input)
    requires s.error.None?
    ensures Read(s, raiseOnExpired, input).error == Failure(raiseOnExpired, input)
    ensures Failure(raiseOnExpired, input).Some? ==> Read(s, raiseOnExpired, input).cursor == s.cursor
  {
  }

  /** The first input that raises ends the stream, with its exception and the version so far. */
  lemma {:induction false} RaisedExact(start: Option<nat>, raiseOnExpired: bool, inputs: seq<Input>)
    ensures var end := ReadAll(start, raiseOnExpired, inputs);
            && (end.error.None? <==> Smooth(raiseOnExpired, inputs))
            && (end.error.Some? ==> exists i: nat :: EndsAt(start, raiseOnExpired, inputs, end, i))
  {
    if inputs != [] {
      var n := |inputs| - 1;
      var before := ReadAll(start, raiseOnExpired, inputs[..n]);
      RaisedExact(start, raiseOnExpired, inputs[..n]);
      assert inputs[n] in inputs && forall input <- inputs :: input in inputs[..n] || input == inputs[n];
      if before.error.None? {
        ReadRaises(before, raiseOnExpired, inputs[n]);
        assert Failure(raiseOnExpired, inputs[n]).Some? ==>
                 EndsAt(start, raiseOnExpired, inputs, ReadAll(start, raiseOnExpired, inputs), n);
      } else {
        var i: nat :| EndsAt(start, raiseOnExpired, inputs[..n], before, i);
        assert inputs[..n][..i] == inputs[..i];
        assert EndsAt(start, raiseOnExpired, inputs, before, i);
      }
    }
  }

  lemma ReadMoves(s: Stream, raiseOnExpired: bool, input: Input)
    requires s.error.None? && Failure(raiseOnExpired, input).None?
    ensures Read(s, raiseOnExpired, input) == Stream(if Moves(input) then Mark(input) else s.cursor, None)
  {
  }

  /** What a stream resumes from, k being the number of inputs up to the last one that carried a
      version or was such an expiry: that version, or none after the expiry, or the version the
      stream started with when there was no such input. */
  lemma {:induction false} ResumeExact(start: Option<nat>, raiseOnExpired: bool, inputs: seq<Input>, k: nat)
    requires Smooth(raiseOnExpired, inputs)
    requires k <= |inputs| && Unmarked(inputs[k..]) && (k > 0 ==> Moves(inputs[k - 1]))
    ensures ReadAll(start, raiseOnExpired, inputs).cursor == if k == 0 then start else Mark(inputs[k - 1])
  {
    if inputs != [] {
      var n := |inputs| - 1;
      assert inputs[n] in inputs && forall input <- inputs[..n] :: input in inputs;
      RaisedExact(start, raiseOnExpired, inputs[..n]);
      ReadMoves(ReadAll(start, raiseOnExpired, inputs[..n]), raiseOnExpired, inputs[n]);
      if k <= n {
        assert inputs[n] == inputs[k..][n - k] && inputs[..n][k..] == inputs[k..][..n - k];
        assert forall input <- inputs[k..][..n - k] :: input in inputs[k..];
        ResumeExact(start, raiseOnExpired, inputs[..n], k);
      }
    }
  }

  /** There is such a number for all inputs. */
  lemma {:induction false} LastMove(inputs: seq<Input>) returns (k: nat)
    ensures k <= |inputs| && Unmarked(inputs[k..]) && (k > 0 ==> Moves(inputs[k - 1]))
  {
    k := |inputs|;
    while k > 0 && !Moves(inputs[k - 1])
      invariant k <= |inputs| && Unmarked(inputs[k..])
    {
      k := k - 1;
      assert inputs[k..] == [inputs[k]] + inputs[k + 1..];
    }
  }

  // ----- the same, code by code -----

  lemma ReadAppend(start: Option<nat>, raiseOnExpired: bool, inputs: seq<Input>, last: Input)
    ensures ReadAll(start, raiseOnExpired, inputs + [last])
            == Read(ReadAll(start, raiseOnExpired, inputs), raiseOnExpired, last)
  {
    assert (inputs + [last])[..|inputs|] == inputs;
  }

  /** The answer to a request, or an error line, with this status code and no other reason. */
  predicate Says(input: Input, code: int) {
    || input == Answer(code)
    || (input.Text? && input.line.ErrorLine? && input.line.code == Some(code) && input.line.reason == Unrelated)
  }

  /** A timeout, a throttled request, and every status outside 200 to 499 are survived: the stream
      connects again from the version it had. */
  lemma TransientCodes(start: Option<nat>, raiseOnExpired: bool, inputs: seq<Input>, last: Input, code: int)
    requires code == 408 || code == 429 || code < 200 || 300 <= code < 400 || code >= 500
    requires Says(last, code)
    ensures ReadAll(start, raiseOnExpired, inputs + [last]) == ReadAll(start, raiseOnExpired, inputs)
  {
    ReadAppend(start, raiseOnExpired, inputs, last);
    ReadTransient(ReadAll(start, raiseOnExpired, inputs), raiseOnExpired, last, code);
  }

  lemma ReadTransient(s: Stream, raiseOnExpired: bool, last: Input, code: int)
    requires code == 408 || code == 429 || code < 200 || 300 <= code < 400 || code >= 500
    requires Says(last, code)
    ensures Read(s, raiseOnExpired, last) == s
  {
  }

  /** Success, the end of a response, a lost connection and an error line without a code. */
  predicate Passing(input: Input) {
    match input
    case Answer(code) => 200 <= code < 300
    case Text(ErrorLine(code, reason, _)) => code.None? && reason == Unrelated
    case Text(_) => false
    case EndOfResponse => true
    case TransportFailure => true
  }

  lemma ReadPassing(s: Stream, raiseOnExpired: bool, last: Input)
    requires Passing(last)
    ensures Read(s, raiseOnExpired, last) == s
  {
  }

  /** They change nothing either. */
  lemma QuietInputs(start: Option<nat>, raiseOnExpired: bool, inputs: seq<Input>, last: Input)
    requires Passing(last)
    ensures ReadAll(start, raiseOnExpired, inputs + [last]) == ReadAll(start, raiseOnExpired, inputs)
  {
    ReadAppend(start, raiseOnExpired, inputs, last);
    ReadPassing(ReadAll(start, raiseOnExpired, inputs), raiseOnExpired, last);
  }

  /** An event or a bookmark, with this version if it has one. */
  predicate Brings(input: Input, version: Option<nat>) {
    || input == Text(BookmarkLine(version))
    || (input.Text? && input.line.EventLine?
        && version == if input.line.obj.version == 0 then None else Some(input.line.obj.version))
  }

  /** Events and bookmarks of a running stream: a version is taken over, a missing one is not. */
  lemma VersionsRead(start: Option<nat>, raiseOnExpired: bool, inputs: seq<Input>, last: Input, version: Option<nat>)
    requires Brings(last, version)
    requires ReadAll(start, raiseOnExpired, inputs).error.None?
    ensures ReadAll(start, raiseOnExpired, inputs + [last])
            == if version.None? then ReadAll(start, raiseOnExpired, inputs) else Stream(version, None)
  {
    ReadAppend(start, raiseOnExpired, inputs, last);
    ReadVersion(ReadAll(start, raiseOnExpired, inputs), raiseOnExpired, last, version);
  }

  lemma ReadVersion(s: Stream, raiseOnExpired: bool, last: Input, version: Option<nat>)
    requires Brings(last, version) && s.error.None?
    ensures Read(s, raiseOnExpired, last) == if version.None? then s else Stream(version, None)
  {
  }

  /** Every other client error ends a stream that was still running, as a status and as a line. */
  lemma FinalCodes(start: Option<nat>, raiseOnExpired: bool, inputs: seq<Input>, last: Input, code: int)
    requires 400 <= code < 500 && code != 408 && code != 410 && code != 429 && Says(last, code)
    requires ReadAll(start, raiseOnExpired, inputs).error.None?
    ensures ReadAll(start, raiseOnExpired, inputs + [last])
            == Stream(ReadAll(start, raiseOnExpired, inputs).cursor, Some(ApiError(Some(code))))
  {
    ReadAppend(start, raiseOnExpired, inputs, last);
    ReadFinal(ReadAll(start, raiseOnExpired, inputs), raiseOnExpired, last, code);
  }

  lemma ReadFinal(s: Stream, raiseOnExpired: bool, last: Input, code: int)
    requires 400 <= code < 500 && code != 408 && code != 410 && code != 429 && Says(last, code) && s.error.None?
    ensures Read(s, raiseOnExpired, last) == Stream(s.cursor, Some(ApiError(Some(code))))
  {
  }

  /** Status 410, or a line with that code or a reason of expiry. */
  predicate Expires(input: Input) {
    || input == Answer(410)
    || (input.Text? && input.line.ErrorLine? && (input.line.code == Some(410) || input.line.reason != Unrelated))
  }

  /** A line that ends the stream for another client error. */
  predicate Overruled(input: Input) {
    && input.Text? && input.line.ErrorLine? && input.line.code.Some?
    && 400 <= input.line.code.value < 500 && input.line.code.value !in {408, 410, 429}
  }

  /** Expired history: a stream that raises says so and keeps its version; one that does not
      starts over from "now" after status 410 or a failure with reason Expired. */
  lemma ExpiredCodes(start: Option<nat>, raiseOnExpired: bool, inputs: seq<Input>, last: Input)
    requires Expires(last) && (raiseOnExpired || !Overruled(last))
    requires ReadAll(start, raiseOnExpired, inputs).error.None?
    ensures var cursor := ReadAll(start, raiseOnExpired, inputs).cursor;
            ReadAll(start, raiseOnExpired, inputs + [last])
            == if raiseOnExpired then Stream(cursor, Some(WatchExpired))
               else if last.Answer? || (last.line.failure && last.line.reason == Expired) then Stream(None, None)
               else Stream(cursor, None)
  {
    ReadAppend(start, raiseOnExpired, inputs, last);
    ReadExpired(ReadAll(start, raiseOnExpired, inputs), raiseOnExpired, last);
  }

  lemma ReadExpired(s: Stream, raiseOnExpired: bool, last: Input)
    requires Expires(last) && (raiseOnExpired || !Overruled(last)) && s.error.None?
    ensures Read(s, raiseOnExpired, last)
            == if raiseOnExpired then Stream(s.cursor, Some(WatchExpired))
               else if last.Answer? || (last.line.failure && last.line.reason == Expired) then Stream(None, None)
               else s
  {
  }

  /** A stream that raises on expiry never forgets the version it holds. */
  lemma {:induction false} RaisingKeeps(start: Option<nat>, inputs: seq<Input>)
    requires start.Some?
    ensures ReadAll(start, true, inputs).cursor.Some?
  {
    if inputs != [] { RaisingKeeps(start, inputs[..|inputs| - 1]); }
  }

  // ----- the manager -----

  datatype State = Stopped | Starting | Running | Failed

  datatype Manager = Manager(state: State, version: Option<nat>)

  function OnStart(m: Manager): Manager { if m.state.Stopped? then Manager(Starting, None) else m }
  function OnStop(m: Manager): Manager { m.(state := Stopped) }
  function OnListed(m: Manager, version: nat): Manager {
    Manager(if m.state.Starting? then Running else m.state, Some(version))
  }
  function OnEvent(m: Manager, version: Option<nat>): Manager { m.(version := version) }

  /** What an exception means: expired history or the resync timeout force a relist, a client
      error is final, anything else is tried again from the same version. */
  datatype Ending = NeedsRelist | ClientFailure | Retryable

  function Classify(error: Error): Ending {
    if error.WatchExpired? || error.TimedOut? then NeedsRelist
    else if error.IsApiError() && error.StatusCode().Some? && ClientError(error.StatusCode().value) then ClientFailure
    else Retryable
  }

  function OnEnd(m: Manager, error: Error): Manager {
    match Classify(error)
    case NeedsRelist => m.(version := None)
    case ClientFailure => m.(state := Failed)
    case Retryable => m
  }

  /** How the stream of a manager can end: with expired history, which forces a relist although
      its status is a client error; with a client error, which is final; or with a line that
      cannot be decoded, which is tried again. Everything else is handled inside the stream. */
  lemma EndingExact(m: Manager, inputs: seq<Input>) returns (i: nat)
    requires ReadAll(m.version, true, inputs).error.Some?
    ensures i < |inputs| && Smooth(true, inputs[..i])
    ensures var after := OnEnd(m, ReadAll(m.version, true, inputs).error.value);
            if SaysExpired(inputs[i]) then after == m.(version := None)
            else if SaysClientError(inputs[i]) then after == m.(state := Failed)
            else inputs[i] == Text(Garbage) && after == m
  {
    RaisedExact(m.version, true, inputs);
    i :| EndsAt(m.version, true, inputs, ReadAll(m.version, true, inputs), i);
  }

  /** Which status codes are final for the manager, and what all other exceptions do. */
  lemma FinalForManager(m: Manager, code: int)
    ensures OnEnd(m, ApiError(Some(code))) ==
            if 400 <= code < 500 && code != 408 && code != 429 then m.(state := Failed) else m
    ensures OnEnd(m, ApiError(None)) == m && OnEnd(m, OtherError) == m
    ensures OnEnd(m, WatchExpired) == m.(version := None) && OnEnd(m, TimedOut) == m.(version := None)
  {
  }

  class AsyncWatchManager {
    var state: State
    var version: Option<nat>

    function Fields(): Manager reads this { Manager(state, version) }

    constructor ()
      ensures Fields() == Manager(Stopped, None)
    {
      state, version := Stopped, None;
    }

    method Start() returns (spawned: bool)
      modifies this
      ensures Fields() == OnStart(old(Fields())) && spawned == old(state).Stopped?
    {
      spawned := state == Stopped;
      if spawned { state, version := Starting, None; }
    }

    method Stop()
      modifies this
      ensures Fields() == OnStop(old(Fields()))
    {
      state := Stopped;
    }

    method Listed(listVersion: nat)
      modifies this
      ensures Fields() == OnListed(old(Fields()), listVersion)
    {
      version := Some(listVersion);
      if state == Starting { state := Running; }
    }

    method Event(eventVersion: Option<nat>)
      modifies this
      ensures Fields() == OnEvent(old(Fields()), eventVersion)
    {
      version := eventVersion;
    }

    method Ended(error: Error) returns (relist: bool)
      modifies this
      ensures Fields() == OnEnd(old(Fields()), error)
      ensures relist == version.None?
    {
      if error.WatchExpired? || error.TimedOut? {
        version := None;
      } else if error.IsApiError() {
        var code := error.StatusCode();
        if code.Some? && ClientError(code.value) { state := Failed; }
      }
      relist := version == None;
    }
  }
}
