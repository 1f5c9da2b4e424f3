/**
 * `executeCommand` (system_info.ts): the command is optionally wrapped to run as the current
 * user, run by `sh -c`, its standard output and error collected chunk by chunk, and the exit
 * code decides between the trimmed output and an error naming the code. The process itself
 * is not modelled: the chunks it writes and the code it closes with are parameters.
 */
module Command {
  import opened Wrappers
  import opened Text

  /** How the promise settles: resolved with a text, or rejected with an error message. */
  datatype Outcome = Resolved(text: string) | Rejected(message: string)

  const SuPrefix := "su - "

  /** With `asUser`, the command becomes `su - <user> -c "<command>"`; otherwise it is unchanged. */
  function WrapCommand(command: string, user: string, asUser: bool): (r: string)
    ensures !asUser ==> r == command
    ensures asUser ==> |r| == |command| + |user| + 11
  {
    if asUser then SuPrefix + user + " -c \"" + command + "\"" else command
  }

  /** The command a wrapped line runs for `user`: what sits between `-c "` and the final quote. */
  function UnwrapCommand(line: string, user: string): (r: Option<string>)
    ensures r.Some? ==> |r.value| + |user| + 11 == |line|
  {
    var head := SuPrefix + user + " -c \"";
    if |line| > |head| && line[..|head|] == head && line[|line| - 1] == '"' then
      Some(line[|head|..|line| - 1])
    else None
  }

  /** Wrapping is undone by unwrapping: the wrapped line runs exactly the given command. */
  lemma UnwrapWrap(command: string, user: string)
    ensures UnwrapCommand(WrapCommand(command, user, true), user) == Some(command)
  {
    var head := SuPrefix + user + " -c \"";
    var line := WrapCommand(command, user, true);
    assert line == head + command + "\"";
    assert line[..|head|] == head;
    assert line[|head|..|line| - 1] == command;
  }

  /** The code as `${code}` renders it: a number, or `null` when the process died of a signal. */
  function CodeText(code: Option<int>): string {
    match code
    case None => "null"
    case Some(c) => IntToString(c)
  }

  const FailurePrefix := "Command failed with code "

  /** The output of a process collected so far, as the `data` listeners append it. */
  class CommandRun {
    var output: string
    var errorOutput: string

    constructor()
      ensures output == [] && errorOutput == []
    {
      output := [];
      errorOutput := [];
    }

    /** `proc.stdout.on('data')`. */
    method OnStdout(data: string)
      modifies this
      ensures output == old(output) + data && errorOutput == old(errorOutput)
    {
      output := output + data;
    }

    /** `proc.stderr.on('data')`. */
    method OnStderr(data: string)
      modifies this
      ensures errorOutput == old(errorOutput) + data && output == old(output)
    {
      errorOutput := errorOutput + data;
    }

    /** `proc.on('close')`: any code but 0 rejects with the code and the error output. */
    function Close(code: Option<int>): (r: Outcome)
      reads this
      ensures r.Resolved? <==> code == Some(0)
      ensures r.Resolved? ==> r.text == Trim(output)
      ensures r.Rejected? ==> r.message == FailurePrefix + CodeText(code) + ": " + errorOutput
    {
      if code != Some(0) then Rejected(FailurePrefix + CodeText(code) + ": " + errorOutput)
      else Resolved(Trim(output))
    }
  }

  /** The chunks joined in the order they arrived. */
  function Concat(chunks: seq<string>): (s: string)
    ensures |chunks| == 0 ==> s == []
  {
    if chunks == [] then [] else Concat(chunks[..|chunks| - 1]) + chunks[|chunks| - 1]
  }

  /** How a process that wrote these chunks and closed with this code settles. */
  function OutcomeOf(stdout: seq<string>, stderr: seq<string>, code: Option<int>): (r: Outcome)
    ensures r.Resolved? <==> code == Some(0)
    ensures r.Resolved? ==> r.text == Trim(Concat(stdout))
    ensures r.Rejected? ==> r.message == FailurePrefix + CodeText(code) + ": " + Concat(stderr)
  {
    if code != Some(0) then Rejected(FailurePrefix + CodeText(code) + ": " + Concat(stderr))
    else Resolved(Trim(Concat(stdout)))
  }

  /**
   * `executeCommand`: the command line handed to `sh -c`, and how the promise settles once
   * the process has written its chunks and closed.
   */
  method ExecuteCommand(command: string, user: string, asUser: bool,
                        stdout: seq<string>, stderr: seq<string>, code: Option<int>)
    returns (line: string, outcome: Outcome)
    ensures line == WrapCommand(command, user, asUser)
    ensures outcome == OutcomeOf(stdout, stderr, code)
  {
    line := command;
    if asUser {
      line := SuPrefix + user + " -c \"" + command + "\"";
    }
    var run := new CommandRun();
    for i := 0 to |stdout|
      invariant run.output == Concat(stdout[..i]) && run.errorOutput == []
    {
      assert stdout[..i + 1][..i] == stdout[..i];
      run.OnStdout(stdout[i]);
    }
    assert stdout[..|stdout|] == stdout;
    for i := 0 to |stderr|
      invariant run.output == Concat(stdout) && run.errorOutput == Concat(stderr[..i])
    {
      assert stderr[..i + 1][..i] == stderr[..i];
      run.OnStderr(stderr[i]);
    }
    assert stderr[..|stderr|] == stderr;
    outcome := run.Close(code);
  }

  /**
   * A successful command resolves with a piece of its joined output that has nothing but white
   * space around it and no white space at either end.
   */
  lemma ResolvedIsTrimmed(stdout: seq<string>, stderr: seq<string>)
    ensures var r := OutcomeOf(stdout, stderr, Some(0));
            && r.Resolved?
            && (r.text == [] || (!IsSpace(r.text[0]) && !IsSpace(r.text[|r.text| - 1])))
            && exists i :: TrimmedAt(Concat(stdout), r.text, i)
  {
    var r := OutcomeOf(stdout, stderr, Some(0));
    TrimmedPiece(Concat(stdout), r.text);
  }

  lemma TrimmedPiece(out: string, t: string)
    requires t == Trim(out)
    ensures t == [] || (!IsSpace(t[0]) && !IsSpace(t[|t| - 1]))
    ensures exists i :: TrimmedAt(out, t, i)
  {
  }

  /** The error output of a successful command is dropped; the standard output of a failed one is. */
  lemma OutcomeIgnores(stdout: seq<string>, stdout2: seq<string>, stderr: seq<string>, stderr2: seq<string>,
                       code: Option<int>)
    ensures code == Some(0) ==> OutcomeOf(stdout, stderr, code) == OutcomeOf(stdout, stderr2, code)
    ensures code != Some(0) ==> OutcomeOf(stdout, stderr, code) == OutcomeOf(stdout2, stderr, code)
  {
  }
}
