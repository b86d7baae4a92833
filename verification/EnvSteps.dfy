/** Environment actions, step results and the two scrubs that compare them
    (src/env/base.py, src/rollout/certification.py, src/determinism.py). */
module EnvSteps {

  datatype Option<+T> = None | Some(value: T)

  datatype RunAction = RunAction(command: string, cwd: Option<string>, timeoutSec: Option<real>)

  datatype Action = Run(run: RunAction) | Verify

  datatype RawOutput = RawOutput(
    instruction: string, workingDir: Option<string>, exitCode: Option<int>, stdout: string, stderr: string)

  datatype Verdict = Completed(passed: bool) | Incomplete(error: string)

  datatype StepResult = StepResult(
    output: RawOutput, reward: real, terminated: bool, truncated: bool,
    info: map<string, string>, metrics: map<string, real>, verdict: Option<Verdict>)

  /** `scrub` is the model-visible normalisation of one text stream for one command; `canon` is the
      line-order-insensitive form that the drift audit takes of an already scrubbed text. Both are
      regular-expression tables in the repository and arbitrary functions here. */
  datatype Scrubber = Scrubber(scrub: (string, Option<string>) -> string, canon: string -> string)

  function CommandOf(a: Action): Option<string> {
    if a.Run? then Some(a.run.command) else None
  }

  function ScrubResult(s: Scrubber, r: StepResult, command: Option<string>): StepResult {
    r.(output := r.output.(stdout := s.scrub(r.output.stdout, command),
                           stderr := s.scrub(r.output.stderr, command)))
  }

  function CanonResult(s: Scrubber, r: StepResult): StepResult {
    r.(output := r.output.(stdout := s.canon(r.output.stdout), stderr := s.canon(r.output.stderr)))
  }

  /** The payload that `scrubbed_hash` digests. Hash equality is payload equality here: SHA-256 is taken
      not to collide on the payloads of one session. */
  function ScrubbedHash(s: Scrubber, r: StepResult, command: Option<string>): StepResult {
    CanonResult(s, ScrubResult(s, r, command))
  }

  /** A scrubbed text keeps its audit identity when it is scrubbed once more. The served side of the
      audit is scrubbed once and the live side twice, so this is what the audit rests on. */
  predicate AuditStable(s: Scrubber, scrubbed: StepResult, command: Option<string>) {
    CanonResult(s, ScrubResult(s, scrubbed, command)) == CanonResult(s, scrubbed)
  }

  /** The live side of the audit: `_materialize` scrubs the result and then hashes it. */
  function LiveHash(s: Scrubber, r: StepResult, command: Option<string>): StepResult {
    ScrubbedHash(s, ScrubResult(s, r, command), command)
  }

  /** A re-execution shows what was recorded: both streams read alike to the audit, the recorded one scrubbed once
      and the live one twice, and nothing else of the result differs. */
  predicate Reproduces(s: Scrubber, recorded: StepResult, live: StepResult, command: Option<string>) {
    && s.canon(s.scrub(s.scrub(live.output.stdout, command), command)) == s.canon(s.scrub(recorded.output.stdout, command))
    && s.canon(s.scrub(s.scrub(live.output.stderr, command), command)) == s.canon(s.scrub(recorded.output.stderr, command))
    && live.(output := recorded.output) == recorded
    && live.output.(stdout := recorded.output.stdout, stderr := recorded.output.stderr) == recorded.output
  }

  /** That is what the two hashes compare. */
  lemma HashesCompare(s: Scrubber, recorded: StepResult, live: StepResult, command: Option<string>)
    ensures LiveHash(s, live, command) == ScrubbedHash(s, recorded, command) <==> Reproduces(s, recorded, live, command)
  {
    var x, y := LiveHash(s, live, command), ScrubbedHash(s, recorded, command);
    assert x == y <==> x.output == y.output && live.(output := recorded.output) == recorded;
  }
}
