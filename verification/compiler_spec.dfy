/**
 * What the single-pass compiler (compiler/mod.rs) computes, stated on
 * values: the local-variable stack and its scopes, and the byte patterns
 * of forward jumps and backward loops together with their round trip
 * through the disassembler's jump decoding.
 */
module CompilerSpec {
  import opened Bytes
  import opened Wrappers
  import opened Opcodes
  import opened Debug

  /** A local variable slot: its name and the scope depth it was defined at (None while its initializer runs). */
  datatype Local = Local(name: seq<char>, depth: Option<nat>)

  /** `u8::MAX`: `add_local` refuses a local once this many exist. */
  const MAX_LOCALS: nat := 255

  // ----- Scopes --------------------------------------------------------

  /**
   * Where the locals of the scope at `depth` begin: just after the last
   * local defined in an enclosing (shallower) scope. `declare_variable`
   * looks for a clash from the top down to here.
   */
  function ScopeStart(locals: seq<Local>, depth: nat): (k: nat)
    ensures k <= |locals|
    ensures forall i :: k <= i < |locals| ==> !(locals[i].depth.Some? && locals[i].depth.value < depth)
    ensures k > 0 ==> locals[k - 1].depth.Some? && locals[k - 1].depth.value < depth
    decreases |locals|
  {
    if locals == [] then 0
    else
      var last := locals[|locals| - 1];
      if last.depth.Some? && last.depth.value < depth then |locals|
      else ScopeStart(locals[..|locals| - 1], depth)
  }

  /** What the top-down scan of `declare_variable` stops at: just above the last shallower local, or 0. */
  lemma ScopeStartStop(locals: seq<Local>, depth: nat, i: nat)
    requires i <= |locals|
    requires forall j :: i <= j < |locals| ==> !(locals[j].depth.Some? && locals[j].depth.value < depth)
    requires i > 0 ==> locals[i - 1].depth.Some? && locals[i - 1].depth.value < depth
    ensures ScopeStart(locals, depth) == i
  {
  }

  /** Some local at index `from` or above is named `name`. */
  predicate NamedFrom(locals: seq<Local>, name: seq<char>, from: nat) {
    exists i :: from <= i < |locals| && locals[i].name == name
  }

  /** Looking one local further down. */
  lemma NamedFromStep(locals: seq<Local>, name: seq<char>, from: nat)
    requires 0 < from <= |locals|
    ensures NamedFrom(locals, name, from - 1) == (locals[from - 1].name == name || NamedFrom(locals, name, from))
  {
    if NamedFrom(locals, name, from - 1) && locals[from - 1].name != name {
      var i :| from - 1 <= i < |locals| && locals[i].name == name;
      assert from <= i;
    }
  }

  /** `name` is already declared in the scope at `depth`. */
  predicate Redeclares(locals: seq<Local>, name: seq<char>, depth: nat) {
    NamedFrom(locals, name, ScopeStart(locals, depth))
  }

  /** The local belongs to a scope deeper than `depth` (an undefined local does not). */
  predicate Deeper(local: Local, depth: nat) {
    local.depth.Some? && local.depth.value > depth
  }

  /**
   * How many locals survive `end_scope` back to `depth`: the trailing run
   * of deeper locals is dropped, nothing below it.
   */
  function SurvivorCount(locals: seq<Local>, depth: nat): (k: nat)
    ensures k <= |locals|
    ensures forall i :: k <= i < |locals| ==> Deeper(locals[i], depth)
    ensures k > 0 ==> !Deeper(locals[k - 1], depth)
    decreases |locals|
  {
    if locals == [] || !Deeper(locals[|locals| - 1], depth) then |locals|
    else SurvivorCount(locals[..|locals| - 1], depth)
  }

  /** Where the pops of `end_scope` stop: above the last local that is not deeper, or at 0. */
  lemma SurvivorCountStop(locals: seq<Local>, depth: nat, k: nat)
    requires k <= |locals|
    requires forall i :: k <= i < |locals| ==> Deeper(locals[i], depth)
    requires k > 0 ==> !Deeper(locals[k - 1], depth)
    ensures SurvivorCount(locals, depth) == k
  {
  }

  /**
   * Closing a scope drops no local of the scopes that stay open: when every
   * local deeper than `depth` sits above every other one, exactly the
   * locals of depth at most `depth` (or not yet defined) survive.
   */
  lemma SurvivorsAreOuter(locals: seq<Local>, depth: nat, split: nat)
    requires split <= |locals|
    requires forall i :: 0 <= i < split ==> !Deeper(locals[i], depth)
    requires forall i :: split <= i < |locals| ==> Deeper(locals[i], depth)
    ensures SurvivorCount(locals, depth) == split
  {
  }

  /** `resolve_local`'s search: the highest slot holding `name`. */
  function LastIndexOf(locals: seq<Local>, name: seq<char>): (r: Option<nat>)
    ensures r.Some? ==> r.value < |locals| && locals[r.value].name == name
    ensures r.Some? ==> forall j :: r.value < j < |locals| ==> locals[j].name != name
    ensures r.None? <==> forall i :: 0 <= i < |locals| ==> locals[i].name != name
    decreases |locals|
  {
    if locals == [] then None
    else if locals[|locals| - 1].name == name then Some(|locals| - 1)
    else LastIndexOf(locals[..|locals| - 1], name)
  }

  /** What the top-down search of `resolve_local` stops at: just above the last match, or 0. */
  lemma LastIndexOfStop(locals: seq<Local>, name: seq<char>, i: nat)
    requires i <= |locals|
    requires forall j :: i <= j < |locals| ==> locals[j].name != name
    requires i > 0 ==> locals[i - 1].name == name
    ensures LastIndexOf(locals, name) == if i == 0 then None else Some(i - 1)
  {
  }

  /**
   * Shadowing: a name declared again in an inner scope resolves to the new
   * slot, and every other name resolves as before.
   */
  lemma InnermostWins(locals: seq<Local>, name: seq<char>, other: seq<char>, depth: Option<nat>)
    requires other != name
    ensures LastIndexOf(locals + [Local(name, depth)], name) == Some(|locals|)
    ensures LastIndexOf(locals + [Local(name, depth)], other) == LastIndexOf(locals, other)
  {
    var grown := locals + [Local(name, depth)];
    assert grown[..|grown| - 1] == locals;
  }

  // ----- Jumps ---------------------------------------------------------

  /** `emit_jump`'s bytes: the opcode and a two-byte placeholder. */
  function JumpPlaceholder(op: Opcode): seq<u8> {
    [Encode(op), 0xff, 0xff]
  }

  /** The distance `patch_jump` stores: from just after the operand to the end of the code. */
  function PatchDistance(code: seq<u8>, offset: nat): int {
    |code| - offset - 2
  }

  /**
   * `patch_jump` on the byte level: the two operand bytes at `offset` take
   * the distance, big-endian and truncated to 16 bits.
   */
  function PatchedCode(code: seq<u8>, offset: nat): (r: seq<u8>)
    requires offset + 2 <= |code|
    ensures |r| == |code|
    ensures forall i :: 0 <= i < |code| && i != offset && i != offset + 1 ==> r[i] == code[i]
    ensures BigEndian(r[offset], r[offset + 1]) == PatchDistance(code, offset) % 0x1_0000
  {
    var b := U16BigEndian(PatchDistance(code, offset));
    code[offset := b[0]][offset + 1 := b[1]]
  }

  /**
   * Round trip: a forward jump patched when the code has length `|code|`
   * decodes to a target equal to that length, provided the distance fits
   * in 16 bits.
   */
  lemma PatchedJumpLands(code: seq<u8>, offset: nat)
    requires 1 <= offset && offset + 2 <= |code|
    requires code[offset - 1] == Encode(Jump) || code[offset - 1] == Encode(JumpIfFalse)
    requires PatchDistance(code, offset) <= U16_MAX
    ensures var patched := PatchedCode(code, offset);
      Decode(patched[offset - 1]).Some? && IsJump(Decode(patched[offset - 1]).value) &&
      JumpTarget(patched, offset - 1) == |code|
  {
    DecodeEncode(Jump);
    DecodeEncode(JumpIfFalse);
  }

  /**
   * The bytes `or` writes before its right operand: a JumpIfFalse over the
   * next instruction, a Jump still holding its placeholder, then Pop.
   */
  function OrPrologue(): seq<u8> {
    [Encode(JumpIfFalse), 0, 3, Encode(Jump), 0xff, 0xff, Encode(Pop)]
  }

  /** Patching `or`'s first jump, with the second jump's placeholder after it, stores 3. */
  lemma PatchOrElseJump(code: seq<u8>)
    ensures var placed := code + JumpPlaceholder(JumpIfFalse) + JumpPlaceholder(Jump);
      PatchedCode(placed, |code| + 1) + [Encode(Pop)] == code + OrPrologue()
  {
    var placed := code + JumpPlaceholder(JumpIfFalse) + JumpPlaceholder(Jump);
    assert PatchDistance(placed, |code| + 1) == 3;
    assert U16BigEndian(3) == [0, 3];
  }

  /** The first jump of `or` lands on the Pop, just past the second jump. */
  lemma ElseJumpLands(code: seq<u8>, at: nat)
    requires at + 3 <= |code| && code[at] == Encode(JumpIfFalse) && code[at + 1] == 0 && code[at + 2] == 3
    ensures Decode(code[at]) == Some(JumpIfFalse) && JumpTarget(code, at) == at + 6
  {
    DecodeEncode(JumpIfFalse);
  }

  /**
   * Once `or`'s second jump is patched: the first jump lands on the Pop, and
   * the second, when its distance fits, on the end of the code.
   */
  lemma OrPatchedShape(code: seq<u8>, at: nat)
    requires at + 7 <= |code| && code[at..at + 7] == OrPrologue()
    ensures var p := PatchedCode(code, at + 4);
      at + 7 <= |p| &&
      p[at] == Encode(JumpIfFalse) && Decode(p[at]) == Some(JumpIfFalse) && JumpTarget(p, at) == at + 6 &&
      p[at + 3] == Encode(Jump) && p[at + 6] == Encode(Pop) &&
      (|p| - at - 6 <= U16_MAX ==> Decode(p[at + 3]) == Some(Jump) && JumpTarget(p, at + 3) == |p|)
  {
    var p := PatchedCode(code, at + 4);
    var w := code[at..at + 7];
    assert code[at] == w[0] == Encode(JumpIfFalse);
    assert code[at + 1] == w[1] == 0 && code[at + 2] == w[2] == 3;
    assert code[at + 3] == w[3] == Encode(Jump);
    assert code[at + 6] == w[6] == Encode(Pop);
    assert p[at] == code[at] && p[at + 1] == code[at + 1] && p[at + 2] == code[at + 2];
    assert p[at + 3] == code[at + 3] && p[at + 6] == code[at + 6];
    ElseJumpLands(p, at);
    if |p| - at - 6 <= U16_MAX {
      PatchedJumpLands(code, at + 4);
      DecodeEncode(Jump);
    }
  }

  /** The distance `emit_loop` stores, counted from the end of the code after the Loop opcode. */
  function LoopDistance(code: seq<u8>, loopStart: nat): int {
    |code| + 1 - loopStart + 2
  }

  /** `emit_loop` on the byte level: Loop, then the distance back to `loopStart`. */
  function LoopCode(code: seq<u8>, loopStart: nat): (r: seq<u8>)
    requires loopStart <= |code| + 3
    ensures |r| == |code| + 3 && r[..|code|] == code
  {
    code + [Encode(Loop)] + U16BigEndian(LoopDistance(code, loopStart))
  }

  /** Round trip: the Loop that `emit_loop` writes decodes to exactly `loopStart`. */
  lemma EmittedLoopLands(code: seq<u8>, loopStart: nat)
    requires loopStart <= |code| + 3
    requires LoopDistance(code, loopStart) <= U16_MAX
    ensures var looped := LoopCode(code, loopStart);
      Decode(looped[|code|]) == Some(Loop) && JumpTarget(looped, |code|) == loopStart
  {
    DecodeEncode(Loop);
    var looped := LoopCode(code, loopStart);
    assert looped[|code| + 1..|code| + 3] == U16BigEndian(LoopDistance(code, loopStart));
  }
}
