/** What the timing composables record of the functions they wrap. */
module Traces {
  /** One call of a wrapped function: the arguments it got and the time it ran. */
  datatype Invocation<A> = Invocation(args: A, time: int)

  /** The arguments of the calls in `log`, in order. */
  function ArgsOf<A>(log: seq<Invocation<A>>): (r: seq<A>)
    ensures |r| == |log|
  {
    if log == [] then [] else [log[0].args] + ArgsOf(log[1..])
  }

  lemma {:induction false} ArgsOfAppend<A>(a: seq<Invocation<A>>, b: seq<Invocation<A>>)
    ensures ArgsOf(a + b) == ArgsOf(a) + ArgsOf(b)
  {
    if a == [] {
      assert a + b == b;
    } else {
      assert (a + b)[0] == a[0] && (a + b)[1..] == a[1..] + b;
      ArgsOfAppend(a[1..], b);
    }
  }
}
