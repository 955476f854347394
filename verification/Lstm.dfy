/**
 The sliding window in front of the fault classifier (ml-intelligence-03/ml/models/lstm.py).  The network
 itself is an argument: any function from a full input sequence to a prediction.
 */
module Lstm {
  datatype FaultType = Unknown | NetworkLatency | PacketLoss | RegionPartition | Congestion | SynFlood | Cascading

  datatype Prediction = Prediction(fault: FaultType, confidence: real)

  function Suffix<T>(s: seq<T>, n: nat): seq<T> {
    if |s| <= n then s else s[|s| - n..]
  }

  lemma SuffixOfAppend<T>(s: seq<T>, x: T, n: nat)
    ensures Suffix(Suffix(s, n) + [x], n) == Suffix(s + [x], n)
  {
  }

  function Padded<V>(window: seq<V>, seqLen: nat, zero: V): seq<V> {
    if |window| < seqLen then seq(seqLen - |window|, _ => zero) + window else window
  }

  /** What the classifier answers for a window: nothing it could rely on below two vectors, yet with full
      confidence. */
  function Predicted<V>(window: seq<V>, seqLen: nat, zero: V, network: seq<V> -> Prediction): Prediction {
    if |window| < 2 then Prediction(Unknown, 1.0) else network(Padded(window, seqLen, zero))
  }

  /** The network always sees seqLen vectors, the latest last, with zeros before the first one. */
  lemma InputIsLatestVectors<V>(history: seq<V>, seqLen: nat, zero: V, j: nat)
    requires j < seqLen
    ensures |Padded(Suffix(history, seqLen), seqLen, zero)| == seqLen
    ensures Padded(Suffix(history, seqLen), seqLen, zero)[seqLen - 1 - j]
         == if j < |history| then history[|history| - 1 - j] else zero
  {
  }

  /** From a flow's second vector on the answer is the network's, on the latest seqLen vectors; before that it
      is UNKNOWN, with confidence one. */
  lemma AnswersFromTheSecond<V>(history: seq<V>, seqLen: nat, zero: V, network: seq<V> -> Prediction)
    requires seqLen >= 2
    ensures var answer := Predicted(Suffix(history, seqLen), seqLen, zero, network);
            if |history| < 2 then answer == Prediction(Unknown, 1.0)
            else if |history| < seqLen then answer == network(seq(seqLen - |history|, _ => zero) + history)
            else answer == network(history[|history| - seqLen..])
  {
  }

  class NimbusLSTM<V(==)> {
    const seqLen: nat
    var window: seq<V>

    constructor (seqLen: nat)
      ensures this.seqLen == seqLen && window == []
    {
      this.seqLen := seqLen;
      window := [];
    }

    /** A bounded deque drops its oldest element when it would grow too long. */
    method Push(v: V)
      requires |window| <= seqLen
      modifies this
      ensures window == Suffix(old(window) + [v], seqLen)
    {
      window := window + [v];
      if |window| > seqLen {
        window := window[1..];
      }
    }

    method Reset()
      modifies this
      ensures window == []
    {
      window := [];
    }

    method Predict(zero: V, network: seq<V> -> Prediction) returns (p: Prediction)
      ensures p == Predicted(window, seqLen, zero, network)
    {
      if |window| < 2 {
        return Prediction(Unknown, 1.0);
      }
      var input := window;
      if |input| < seqLen {
        input := seq(seqLen - |input|, _ => zero) + input;
      }
      p := network(input);
    }
  }
}
