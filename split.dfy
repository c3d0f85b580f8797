/** Splitting a tokenized command line into environment assignments, an
    executable and its arguments (`splitCommand` in cmd.go). */
module Split {

  /** A token is an environment assignment when it contains `=` anywhere. */
  predicate IsAssignment(token: string) {
    '=' in token
  }

  /** The three parts `splitCommand` returns. */
  datatype Parts = Parts(executable: string, argv: seq<string>, env: seq<string>)

  /** The number of leading assignment tokens. */
  function LeadingAssignments(tokens: seq<string>): (n: nat)
    ensures n <= |tokens|
    ensures forall i :: 0 <= i < n ==> IsAssignment(tokens[i])
    ensures n < |tokens| ==> !IsAssignment(tokens[n])
  {
    if tokens == [] || !IsAssignment(tokens[0]) then 0
    else 1 + LeadingAssignments(tokens[1..])
  }

  /** Every token is an assignment: the fallback case. */
  predicate AllAssignments(tokens: seq<string>) {
    forall i :: 0 <= i < |tokens| ==> IsAssignment(tokens[i])
  }

  /** What `splitCommand` returns for a non-empty token list: the leading
      assignments, the first other token and the rest; or, when every token is
      an assignment, the first token as executable while `env` keeps them all. */
  function SplitOf(tokens: seq<string>): (p: Parts)
    requires |tokens| > 0
    ensures forall i :: 0 <= i < |p.env| ==> IsAssignment(p.env[i])
    ensures p.executable in tokens
  {
    var n := LeadingAssignments(tokens);
    if n < |tokens| then Parts(tokens[n], tokens[n + 1..], tokens[..n])
    else Parts(tokens[0], tokens[1..], tokens)
  }

  /** The loop of `splitCommand`: scans the tokens, collecting assignments into
      `env` until the first token without `=`. */
  method SplitCommand(tokens: seq<string>) returns (executable: string, argv: seq<string>, env: seq<string>)
    requires |tokens| > 0
    ensures Parts(executable, argv, env) == SplitOf(tokens)
  {
    env := [];
    var i := 0;
    while i < |tokens|
      invariant 0 <= i <= |tokens|
      invariant env == tokens[..i]
      invariant forall j :: 0 <= j < i ==> IsAssignment(tokens[j])
    {
      var item := tokens[i];
      if IsAssignment(item) {
        env := env + [item];
      } else {
        executable := item;
        argv := tokens[i + 1..];
        return;
      }
      i := i + 1;
    }
    executable := tokens[0];
    argv := tokens[1..];
  }

  /** The count of leading assignments is determined by any split of the
      tokens into assignments followed by a non-assignment. */
  lemma {:induction false} LeadingAssignmentsOfConcat(pre: seq<string>, rest: seq<string>)
    requires forall i :: 0 <= i < |pre| ==> IsAssignment(pre[i])
    requires |rest| > 0 && !IsAssignment(rest[0])
    ensures LeadingAssignments(pre + rest) == |pre|
  {
    if pre != [] {
      assert (pre + rest)[1..] == pre[1..] + rest;
      LeadingAssignmentsOfConcat(pre[1..], rest);
    } else {
      assert pre + rest == rest;
    }
  }

  /** Normal case: when some token is not an assignment, the tokens are exactly
      `env ++ [executable] ++ argv`, every `env` entry is an assignment and the
      executable is not; later tokens go to `argv` even if they contain `=`. */
  lemma SplitNormal(tokens: seq<string>)
    requires |tokens| > 0 && !AllAssignments(tokens)
    ensures var p := SplitOf(tokens);
      && tokens == p.env + [p.executable] + p.argv
      && (forall i :: 0 <= i < |p.env| ==> IsAssignment(p.env[i]))
      && !IsAssignment(p.executable)
  {
    var n := LeadingAssignments(tokens);
    assert tokens == tokens[..n] + [tokens[n]] + tokens[n + 1..];
  }

  /** Uniqueness: N leading assignments followed by a non-assignment token and
      M - 1 more tokens give exactly those N entries in `env`, that token as the
      executable and the M - 1 tokens as `argv`. */
  lemma SplitOfConcat(assignments: seq<string>, rest: seq<string>)
    requires forall i :: 0 <= i < |assignments| ==> IsAssignment(assignments[i])
    requires |rest| > 0 && !IsAssignment(rest[0])
    ensures SplitOf(assignments + rest) == Parts(rest[0], rest[1..], assignments)
  {
    var tokens := assignments + rest;
    LeadingAssignmentsOfConcat(assignments, rest);
    assert tokens[..|assignments|] == assignments;
    assert tokens[|assignments| + 1..] == rest[1..];
  }

  /** Fallback: when every token is an assignment, the first token is the
      executable, the rest is `argv`, and `env` still holds every token,
      including the one used as executable. */
  lemma SplitFallback(tokens: seq<string>)
    requires |tokens| > 0 && AllAssignments(tokens)
    ensures SplitOf(tokens) == Parts(tokens[0], tokens[1..], tokens)
  {
  }

  /** Without leading assignments `env` is empty. */
  lemma SplitNoAssignments(tokens: seq<string>)
    requires |tokens| > 0 && !IsAssignment(tokens[0])
    ensures SplitOf(tokens).env == [] && SplitOf(tokens).executable == tokens[0]
  {
    SplitOfConcat([], tokens);
    assert [] + tokens == tokens;
  }
}
