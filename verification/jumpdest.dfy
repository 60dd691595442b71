/**
 Jump-destination analysis (vm/exec.go:9-28, vm/opcodes.go:156-164).

 Instruction starts are the positions a linear decode from 0 visits; the data bytes of a PUSH
 are not starts. The analysis marks exactly the JUMPDEST bytes that are starts.
 */
module Jumpdest {
  import opened Types

  const JUMPDEST: Byte := 0x5b
  const PUSH1: Byte := 0x60
  const PUSH32: Byte := 0x7f

  /** How many data bytes follow the opcode. */
  function PushLen(op: Byte): nat {
    if PUSH1 <= op <= PUSH32 then op - PUSH1 + 1 else 0
  }

  function NextPc(code: seq<Byte>, pc: nat): nat
    requires pc < |code|
  {
    pc + 1 + PushLen(code[pc])
  }

  /** A linear decode that stands at `from` comes to stand at `pc`. */
  predicate Decodes(code: seq<Byte>, from: nat, pc: nat)
    decreases pc - from
  {
    from == pc || (from < pc && from < |code| && Decodes(code, NextPc(code, from), pc))
  }

  /** pc is an instruction start, or the place the decode ends at. */
  predicate IsStart(code: seq<Byte>, pc: nat) { Decodes(code, 0, pc) }

  predicate ValidDest(code: seq<Byte>, d: nat) {
    d < |code| && code[d] == JUMPDEST && IsStart(code, d)
  }

  /** The decode is a chain: beyond a position it visits, it is the decode from that position. */
  lemma {:induction false} DecodesChain(code: seq<Byte>, from: nat, mid: nat, pc: nat)
    requires Decodes(code, from, mid) && mid <= pc
    ensures Decodes(code, from, pc) <==> Decodes(code, mid, pc)
    decreases mid - from
  {
    if from != mid {
      DecodesChain(code, NextPc(code, from), mid, pc);
    }
  }

  /** Stepping over one whole instruction leads from start to start. */
  lemma NextIsStart(code: seq<Byte>, pc: nat)
    requires pc < |code| && IsStart(code, pc)
    ensures IsStart(code, NextPc(code, pc))
  {
    DecodesChain(code, 0, pc, NextPc(code, pc));
  }

  method AnalyseJumpdests(code: seq<Byte>) returns (dests: array<bool>)
    ensures fresh(dests) && dests.Length == |code|
    ensures forall d :: 0 <= d < |code| ==> (dests[d] <==> ValidDest(code, d))
  {
    dests := new bool[|code|](i => false);
    var i: nat := 0;
    while i < |code|
      invariant IsStart(code, i)
      invariant forall d :: 0 <= d < |code| ==> (dests[d] <==> d < i && ValidDest(code, d))
      decreases |code| - i
    {
      ghost var next := NextPc(code, i);
      NextIsStart(code, i);
      forall d | i < d < next ensures !IsStart(code, d) {
        DecodesChain(code, 0, i, d);
      }
      var op := code[i];
      if op == JUMPDEST {
        dests[i] := true;
        i := i + 1;
      } else {
        i := i + PushLen(op) + 1;
      }
    }
  }
}
