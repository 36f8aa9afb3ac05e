/** Tool calls on their way to the client: `ChunkBuilder::tool_call` sends an id
    at most once per index, and the client's accumulator rebuilds the calls. */
module ToolCalls {
  import opened Wrappers
  import opened Numbers
  import opened Translation
  import opened TranslationLaws

  /** A tool-call delta as the backend produced it. */
  datatype Piece = Piece(index: nat, id: Option<string>, name: Option<string>, arguments: Option<string>)

  datatype FunctionDelta = FunctionDelta(name: Option<string>, arguments: Option<string>)

  /** The one entry of a chunk's `tool_calls` array. */
  datatype WireCall = WireCall(index: nat, id: Option<string>, kind: Option<string>, fn: Option<FunctionDelta>)

  datatype Emission = Emission(announced: seq<nat>, call: WireCall)

  function Emit(announced: seq<nat>, p: Piece): Emission {
    var firstTime := p.index !in announced;
    var id := if firstTime then p.id else None;
    var name := if firstTime then p.name else None;
    var arguments := if p.arguments.Some? then p.arguments else if id.Some? then Some("") else None;
    Emission(if id.Some? then announced + [p.index] else announced,
             WireCall(p.index, id, if id.Some? then Some("function") else None,
                      if name.Some? || p.arguments.Some? then Some(FunctionDelta(name, arguments)) else None))
  }

  class ChunkBuilder {
    var announced: seq<nat>

    constructor ()
      ensures announced == []
    {
      announced := [];
    }

    method ToolCall(index: nat, id: Option<string>, name: Option<string>, arguments: Option<string>)
      returns (call: WireCall)
      modifies this
      ensures Emission(announced, call) == Emit(old(announced), Piece(index, id, name, arguments))
      ensures call.id.Some? ==> index !in old(announced) && index in announced
      ensures call.id.Some? <==> call.kind == Some("function")
      ensures call.id.Some? ==>
                (call.fn.Some? && call.fn.value.arguments.Some? <==> name.Some? || arguments.Some?)
    {
      var firstTime := index !in announced;
      var sentId: Option<string> := None;
      if firstTime && id.Some? {
        announced := announced + [index];
        sentId := id;
      }
      var sentName := if firstTime then name else None;
      var fn: Option<FunctionDelta> := None;
      if sentName.Some? || arguments.Some? {
        fn := Some(FunctionDelta(sentName, if arguments.Some? then arguments
                                                  else if sentId.Some? then Some("") else None));
      }
      call := WireCall(index, sentId, if sentId.Some? then Some("function") else None, fn);
    }
  }

  function Announced(ps: seq<Piece>): seq<nat> {
    if ps == [] then [] else Emit(Announced(ps[..|ps| - 1]), ps[|ps| - 1]).announced
  }

  /** The wire calls for a whole stream of pieces. */
  function Wire(ps: seq<Piece>): (ws: seq<WireCall>)
    ensures |ws| == |ps|
  {
    if ps == [] then []
    else Wire(ps[..|ps| - 1]) + [Emit(Announced(ps[..|ps| - 1]), ps[|ps| - 1]).call]
  }

  // ------------------------------------------------- what the engine called

  /** The first id given at an index. */
  function FirstId(ps: seq<Piece>, i: nat): Option<string> {
    if ps == [] then None
    else
      var before := FirstId(ps[..|ps| - 1], i);
      var p := ps[|ps| - 1];
      if before.None? && p.index == i then p.id else before
  }

  /** The last name given at an index. */
  function LastName(ps: seq<Piece>, i: nat): Option<string> {
    if ps == [] then None
    else
      var p := ps[|ps| - 1];
      if p.index == i && p.name.Some? then p.name else LastName(ps[..|ps| - 1], i)
  }

  /** The last name given up to and including the piece with the first id. */
  function NameByTheId(ps: seq<Piece>, i: nat): Option<string> {
    if ps == [] then None
    else
      var before, p := ps[..|ps| - 1], ps[|ps| - 1];
      if FirstId(before, i).None? && p.index == i && p.name.Some? then p.name else NameByTheId(before, i)
  }

  /** Every name given up to and including the piece with the first id. */
  function NamesByTheId(ps: seq<Piece>, i: nat): seq<string> {
    if ps == [] then []
    else
      var before, p := ps[..|ps| - 1], ps[|ps| - 1];
      NamesByTheId(before, i)
      + (if FirstId(before, i).None? && p.index == i && p.name.Some? then [p.name.value] else [])
  }

  /** The last name given after the piece with the first id. */
  function NameAfterTheId(ps: seq<Piece>, i: nat): Option<string> {
    if ps == [] then None
    else
      var before, p := ps[..|ps| - 1], ps[|ps| - 1];
      if FirstId(before, i).Some? && p.index == i && p.name.Some? then p.name else NameAfterTheId(before, i)
  }

  function Arguments(ps: seq<Piece>, i: nat): string {
    if ps == [] then ""
    else
      var p := ps[|ps| - 1];
      Arguments(ps[..|ps| - 1], i) + (if p.index == i then TextOf(p.arguments) else "")
  }

  // -------------------------------------------------------- what is on the wire

  function WireIds(ws: seq<WireCall>, i: nat): seq<string> {
    if ws == [] then []
    else
      var w := ws[|ws| - 1];
      WireIds(ws[..|ws| - 1], i) + (if w.index == i && w.id.Some? then [w.id.value] else [])
  }

  function NameOf(w: WireCall): Option<string> { if w.fn.Some? then w.fn.value.name else None }

  function ArgumentsOf(w: WireCall): string { if w.fn.Some? then TextOf(w.fn.value.arguments) else "" }

  function WireName(ws: seq<WireCall>, i: nat): Option<string> {
    if ws == [] then None
    else
      var w := ws[|ws| - 1];
      if w.index == i && NameOf(w).Some? then NameOf(w) else WireName(ws[..|ws| - 1], i)
  }

  function WireNames(ws: seq<WireCall>, i: nat): seq<string> {
    if ws == [] then []
    else
      var w := ws[|ws| - 1];
      WireNames(ws[..|ws| - 1], i) + (if w.index == i && NameOf(w).Some? then [NameOf(w).value] else [])
  }

  function WireArguments(ws: seq<WireCall>, i: nat): string {
    if ws == [] then ""
    else
      var w := ws[|ws| - 1];
      WireArguments(ws[..|ws| - 1], i) + (if w.index == i then ArgumentsOf(w) else "")
  }

  /** An index is announced exactly when an id has been seen at it. */
  lemma {:induction false} AnnouncedMeansId(ps: seq<Piece>, i: nat)
    ensures i in Announced(ps) <==> FirstId(ps, i).Some?
  {
    if ps == [] {
    } else {
      AnnouncedMeansId(ps[..|ps| - 1], i);
    }
  }

  /** What one wire call says, given whether its index was announced. */
  lemma EmitSays(announced: seq<nat>, p: Piece)
    ensures var w := Emit(announced, p).call;
            && w.index == p.index
            && w.id == (if p.index in announced then None else p.id)
            && NameOf(w) == (if p.index in announced then None else p.name)
            && ArgumentsOf(w) == TextOf(p.arguments)
  {
  }

  lemma WireGrows(ps: seq<Piece>)
    requires ps != []
    ensures var ws, before := Wire(ps), ps[..|ps| - 1];
            && ws[..|ws| - 1] == Wire(before)
            && ws[|ws| - 1] == Emit(Announced(before), ps[|ps| - 1]).call
  {
  }

  lemma {:induction false} WireIdsAre(ps: seq<Piece>, i: nat)
    ensures WireIds(Wire(ps), i) == (if FirstId(ps, i).Some? then [FirstId(ps, i).value] else [])
  {
    if ps == [] {
    } else {
      hide Emit;
      hide Wire;
      var before := ps[..|ps| - 1];
      WireIdsAre(before, i);
      AnnouncedMeansId(before, i);
      EmitSays(Announced(before), ps[|ps| - 1]);
      WireGrows(ps);
    }
  }

  lemma {:induction false} WireArgumentsAre(ps: seq<Piece>, i: nat)
    ensures WireArguments(Wire(ps), i) == Arguments(ps, i)
  {
    if ps == [] {
    } else {
      hide Emit;
      hide Wire;
      var before := ps[..|ps| - 1];
      WireArgumentsAre(before, i);
      EmitSays(Announced(before), ps[|ps| - 1]);
      WireGrows(ps);
    }
  }

  lemma {:induction false} WireNameIs(ps: seq<Piece>, i: nat)
    ensures WireName(Wire(ps), i) == NameByTheId(ps, i)
  {
    if ps == [] {
    } else {
      hide Emit;
      hide Wire;
      var before := ps[..|ps| - 1];
      WireNameIs(before, i);
      AnnouncedMeansId(before, i);
      EmitSays(Announced(before), ps[|ps| - 1]);
      WireGrows(ps);
    }
  }

  lemma {:induction false} WireNamesAre(ps: seq<Piece>, i: nat)
    ensures WireNames(Wire(ps), i) == NamesByTheId(ps, i)
  {
    if ps == [] {
    } else {
      hide Emit;
      hide Wire;
      var before := ps[..|ps| - 1];
      WireNamesAre(before, i);
      AnnouncedMeansId(before, i);
      EmitSays(Announced(before), ps[|ps| - 1]);
      WireGrows(ps);
    }
  }

  /** For every stream of pieces and every index: the id goes out once, as the
      first one given; the argument text is preserved by concatenation; the names
      on the wire are those given before or with the id, and the client ends with
      the last of them. */
  lemma WirePerIndex(ps: seq<Piece>, i: nat)
    ensures WireIds(Wire(ps), i) == (if FirstId(ps, i).Some? then [FirstId(ps, i).value] else [])
    ensures WireArguments(Wire(ps), i) == Arguments(ps, i)
    ensures WireNames(Wire(ps), i) == NamesByTheId(ps, i)
    ensures WireName(Wire(ps), i) == NameByTheId(ps, i)
  {
    WireIdsAre(ps, i);
    WireArgumentsAre(ps, i);
    WireNamesAre(ps, i);
    WireNameIs(ps, i);
  }

  /** A piece that names its call no later than the first id does. */
  ghost predicate NamesByThen(ps: seq<Piece>, i: nat, k: int) {
    0 <= k < |ps| && ps[k].index == i && ps[k].name.Some? && FirstId(ps[..k], i).None?
  }

  ghost predicate AtMostOneNames(ps: seq<Piece>, i: nat) {
    forall j, k :: NamesByThen(ps, i, j) && NamesByThen(ps, i, k) ==> j == k
  }

  lemma NamesByThenGrows(ps: seq<Piece>, i: nat)
    requires ps != []
    ensures var n := |ps| - 1;
            && (forall k :: NamesByThen(ps[..n], i, k) ==> k < n)
            && (forall k :: NamesByThen(ps, i, k) <==> NamesByThen(ps[..n], i, k) || (k == n && NamesByThen(ps, i, n)))
            && NamesByTheId(ps, i)
               == NamesByTheId(ps[..n], i) + (if NamesByThen(ps, i, n) then [ps[n].name.value] else [])
  {
    hide FirstId;
    var n := |ps| - 1;
    assert forall k :: 0 <= k < n ==> ps[..n][..k] == ps[..k];
  }

  lemma {:induction false} NamesCounted(ps: seq<Piece>, i: nat)
    ensures NamesByTheId(ps, i) == [] <==> forall k :: !NamesByThen(ps, i, k)
    ensures |NamesByTheId(ps, i)| <= 1 <==> AtMostOneNames(ps, i)
  {
    if ps == [] {
    } else {
      var n := |ps| - 1;
      NamesByThenGrows(ps, i);
      NamesCounted(ps[..n], i);
      hide NamesByThen;
      hide NamesByTheId;
      if NamesByThen(ps, i, n) && AtMostOneNames(ps, i) {
        forall k ensures !NamesByThen(ps[..n], i, k) {
          assert NamesByThen(ps[..n], i, k) ==> NamesByThen(ps, i, k) && k < n;
        }
      }
    }
  }

  /** The name goes out at most once for an index exactly when at most one piece
      up to the first id carries one. */
  lemma NameGoesOutOnceIff(ps: seq<Piece>, i: nat)
    ensures |WireNames(Wire(ps), i)| <= 1 <==> AtMostOneNames(ps, i)
  {
    WireNamesAre(ps, i);
    NamesCounted(ps, i);
  }

  /** A name given before the id and again with it goes out twice. */
  lemma NameGoesOutTwice()
    ensures var ps := [Piece(0, None, Some("read"), None), Piece(0, Some("call"), Some("read"), None)];
            WireNames(Wire(ps), 0) == ["read", "read"]
  {
    var ps := [Piece(0, None, Some("read"), None), Piece(0, Some("call"), Some("read"), None)];
    var one := ps[..1];
    assert one[..0] == [];
    assert ps[..|ps| - 1] == one;
    assert FirstId(one, 0) == None;
    assert NamesByTheId(one, 0) == ["read"];
    WirePerIndex(ps, 0);
  }

  // ------------------------------------------------------ the documented shape

  /** An earlier piece has the same index. */
  ghost predicate Seen(ps: seq<Piece>, k: int)
    requires 0 <= k < |ps|
  {
    exists j :: 0 <= j < k && ps[j].index == ps[k].index
  }

  /** The shape the stream is documented to have: the first delta of a call opens
      it with id, kind, name and an argument string, and the later ones carry
      arguments only. */
  predicate Opens(w: WireCall) {
    w.id.Some? && w.kind == Some("function") && w.fn.Some? && w.fn.value.name.Some? && w.fn.value.arguments.Some?
  }

  predicate OnlyContinues(w: WireCall) {
    w.id.None? && w.kind.None? && (w.fn.Some? ==> w.fn.value.name.None? && w.fn.value.arguments.Some?)
  }

  lemma {:induction false} WireAt(ps: seq<Piece>, k: int)
    requires 0 <= k < |ps|
    ensures Wire(ps)[k] == Emit(Announced(ps[..k]), ps[k]).call
  {
    var before := ps[..|ps| - 1];
    if k == |ps| - 1 {
    } else {
      WireAt(before, k);
      assert before[..k] == ps[..k];
    }
  }

  lemma {:induction false} IdIsFound(ps: seq<Piece>, j: int)
    requires 0 <= j < |ps| && ps[j].id.Some?
    ensures FirstId(ps, ps[j].index).Some?
  {
    if j == |ps| - 1 {
    } else {
      IdIsFound(ps[..|ps| - 1], j);
    }
  }

  lemma {:induction false} UnseenHasNoId(ps: seq<Piece>, i: nat)
    requires forall j :: 0 <= j < |ps| ==> ps[j].index != i
    ensures FirstId(ps, i).None?
  {
    if ps == [] {
    } else {
      UnseenHasNoId(ps[..|ps| - 1], i);
    }
  }

  lemma {:induction false} FirstOfItsIndex(ps: seq<Piece>, k: int) returns (j: int)
    requires 0 <= k < |ps|
    ensures 0 <= j <= k && ps[j].index == ps[k].index && !Seen(ps, j)
    ensures Seen(ps, k) ==> j < k
    decreases k
  {
    if !Seen(ps, k) {
      j := k;
    } else {
      var earlier :| 0 <= earlier < k && ps[earlier].index == ps[k].index;
      j := FirstOfItsIndex(ps, earlier);
    }
  }

  /** An index never seen opens as documented exactly when its piece has both an
      id and a name; one announced only ever continues. */
  lemma ShapeOfEmission(announced: seq<nat>, p: Piece)
    ensures p.index !in announced ==> (Opens(Emit(announced, p).call) <==> p.id.Some? && p.name.Some?)
    ensures p.index in announced ==> OnlyContinues(Emit(announced, p).call)
  {
  }

  /** The wire has the documented shape, for every call of a stream, if and only
      if the engine's first delta of each call carries both an id and a name. */
  lemma DocumentedShapeIff(ps: seq<Piece>)
    ensures (forall k :: 0 <= k < |ps| ==> if Seen(ps, k) then OnlyContinues(Wire(ps)[k]) else Opens(Wire(ps)[k]))
       <==> (forall k :: 0 <= k < |ps| && !Seen(ps, k) ==> ps[k].id.Some? && ps[k].name.Some?)
  {
    hide Emit;
    hide Wire;
    hide Opens;
    hide OnlyContinues;
    forall k | 0 <= k < |ps| && !Seen(ps, k)
      ensures Opens(Wire(ps)[k]) <==> ps[k].id.Some? && ps[k].name.Some?
    {
      UnseenIsUnannounced(ps, k);
      WireAt(ps, k);
      ShapeOfEmission(Announced(ps[..k]), ps[k]);
    }
    if forall k :: 0 <= k < |ps| && !Seen(ps, k) ==> ps[k].id.Some? && ps[k].name.Some? {
      forall k | 0 <= k < |ps| && Seen(ps, k) ensures OnlyContinues(Wire(ps)[k]) {
        var j := FirstOfItsIndex(ps, k);
        assert ps[j].id.Some? && ps[..k][j] == ps[j];
        IdIsFound(ps[..k], j);
        AnnouncedMeansId(ps[..k], ps[k].index);
        WireAt(ps, k);
        ShapeOfEmission(Announced(ps[..k]), ps[k]);
      }
    }
  }

  lemma UnseenIsUnannounced(ps: seq<Piece>, k: int)
    requires 0 <= k < |ps| && !Seen(ps, k)
    ensures ps[k].index !in Announced(ps[..k])
  {
    var before := ps[..k];
    assert forall j :: 0 <= j < |before| ==> before[j] == ps[j];
    UnseenHasNoId(before, ps[k].index);
    AnnouncedMeansId(before, ps[k].index);
  }

  /** The name the client ends with is the engine's last one exactly when no
      different name was given after the id. */
  lemma {:induction false} NameSurvivesIff(ps: seq<Piece>, i: nat)
    ensures LastName(ps, i) == if NameAfterTheId(ps, i).Some? then NameAfterTheId(ps, i) else NameByTheId(ps, i)
    ensures WireName(Wire(ps), i) == LastName(ps, i)
       <==> NameAfterTheId(ps, i).None? || NameAfterTheId(ps, i) == NameByTheId(ps, i)
    ensures FirstId(ps, i).None? ==> NameAfterTheId(ps, i).None?
  {
    if ps == [] {
    } else {
      NameSurvivesIff(ps[..|ps| - 1], i);
    }
    WirePerIndex(ps, i);
  }

  /** A first delta with an id and nothing else opens a call with no slot for its
      arguments. */
  lemma IdAloneGivesNoSlot()
    ensures var call := Emit([], Piece(0, Some("call"), None, None)).call;
            call.id == Some("call") && call.fn.None?
  {
  }

  /** A name that arrives after the id is lost. */
  lemma LateNameIsLost()
    ensures var ps := [Piece(0, Some("call"), None, None), Piece(0, None, Some("read"), None)];
            LastName(ps, 0) == Some("read") && WireName(Wire(ps), 0) == None
  {
    var ps := [Piece(0, Some("call"), None, None), Piece(0, None, Some("read"), None)];
    var one := ps[..1];
    assert one[..0] == [];
    assert ps[..|ps| - 1] == one;
    assert FirstId(one, 0) == Some("call");
    assert NameByTheId(one, 0) == None;
    WirePerIndex(ps, 0);
  }

  // ------------------------------------------------------------- the client

  datatype Call = Call(id: Option<string>, name: Option<string>, arguments: string)

  /** The calls opened so far and, per index, which of them is being filled. */
  datatype Client = Client(calls: seq<Call>, slot: map<nat, nat>)

  predicate Sound(c: Client) { forall i :: i in c.slot ==> c.slot[i] < |c.calls| }

  /** An id at an index already seen opens another call there and splits the
      arguments; a name is assigned; arguments are appended. */
  function Receive(c: Client, w: WireCall): Client
    requires Sound(c)
  {
    var current := if w.index !in c.slot || w.id.Some?
                  then Client(c.calls + [Call(w.id, None, "")], c.slot[w.index := |c.calls|])
                  else c;
    var at := current.slot[w.index];
    var call := current.calls[at];
    current.(calls := current.calls[at := call.(name := if NameOf(w).Some? then NameOf(w) else call.name,
                                              arguments := call.arguments + ArgumentsOf(w))])
  }

  function Accumulate(ws: seq<WireCall>): (c: Client)
    ensures Sound(c)
  {
    if ws == [] then Client([], map[]) else Receive(Accumulate(ws[..|ws| - 1]), ws[|ws| - 1])
  }

  /** The indexes in order of first appearance. */
  function Order(ps: seq<Piece>): seq<nat> {
    if ps == [] then []
    else
      var before := Order(ps[..|ps| - 1]);
      if ps[|ps| - 1].index in before then before else before + [ps[|ps| - 1].index]
  }

  function CallAt(ps: seq<Piece>, i: nat): Call { Call(FirstId(ps, i), NameByTheId(ps, i), Arguments(ps, i)) }

  /** What has been said about each index by the time of its id: one call per
      index, in order, with the whole of its arguments. */
  function AnnouncedCalls(ps: seq<Piece>): seq<Call> {
    seq(|Order(ps)|, k requires 0 <= k < |Order(ps)| => CallAt(ps, Order(ps)[k]))
  }

  function IntendedCall(ps: seq<Piece>, i: nat): Call { Call(FirstId(ps, i), LastName(ps, i), Arguments(ps, i)) }

  /** The engine's calls, read off its own stream: one per index, in order of
      appearance, with its id, the name it last gave and all its arguments. */
  function IntendedCalls(ps: seq<Piece>): seq<Call> {
    seq(|Order(ps)|, k requires 0 <= k < |Order(ps)| => IntendedCall(ps, Order(ps)[k]))
  }

  /** No index gets a different name after its id. */
  ghost predicate NamesSettled(ps: seq<Piece>) {
    forall i :: i in Order(ps) ==> NameAfterTheId(ps, i).None? || NameAfterTheId(ps, i) == NameByTheId(ps, i)
  }

  /** Where an index has an id, its first piece carries one. */
  ghost predicate IdsFirst(ps: seq<Piece>) {
    forall k :: 0 <= k < |ps| ==> !LateId(ps[..k], ps[k])
  }

  /** An id at an index that has been seen without one. */
  ghost predicate LateId(before: seq<Piece>, p: Piece) {
    p.id.Some? && p.index in Order(before) && FirstId(before, p.index).None?
  }

  lemma {:induction false} OrderIsSeen(ps: seq<Piece>, i: nat)
    ensures i in Order(ps) <==> exists k :: 0 <= k < |ps| && ps[k].index == i
    ensures i !in Order(ps) ==> FirstId(ps, i).None? && NameByTheId(ps, i).None? && Arguments(ps, i) == ""
    ensures forall j, k :: 0 <= j < k < |Order(ps)| ==> Order(ps)[j] != Order(ps)[k]
  {
    if ps == [] {
    } else {
      var before := ps[..|ps| - 1];
      OrderIsSeen(before, i);
      if exists k :: 0 <= k < |before| && before[k].index == i {
        var k :| 0 <= k < |before| && before[k].index == i;
        assert ps[k].index == i;
      }
      if exists k :: 0 <= k < |ps| && ps[k].index == i {
        var k :| 0 <= k < |ps| && ps[k].index == i;
        assert k < |before| ==> before[k].index == i;
      }
      assert ps[|ps| - 1].index == i ==> i in Order(ps);
    }
  }

  lemma IdsFirstSplits(ps: seq<Piece>)
    requires ps != []
    ensures IdsFirst(ps) <==> IdsFirst(ps[..|ps| - 1]) && !LateId(ps[..|ps| - 1], ps[|ps| - 1])
  {
    var before := ps[..|ps| - 1];
    assert forall k :: 0 <= k < |before| ==> before[..k] == ps[..k] && before[k] == ps[k];
    if IdsFirst(ps) {
      forall k | 0 <= k < |before| ensures !LateId(before[..k], before[k]) {
        assert !LateId(ps[..k], ps[k]);
      }
    }
    if IdsFirst(before) && !LateId(before, ps[|ps| - 1]) {
      forall k | 0 <= k < |ps| ensures !LateId(ps[..k], ps[k]) {
        if k < |before| {
          assert !LateId(before[..k], before[k]);
        }
      }
    }
  }

  /** The client's open slots follow the order of appearance. */
  ghost predicate Follows(c: Client, ps: seq<Piece>) {
    && c.calls == AnnouncedCalls(ps)
    && (forall k :: 0 <= k < |Order(ps)| ==> Order(ps)[k] in c.slot && c.slot[Order(ps)[k]] == k)
    && (forall i :: i in c.slot ==> i in Order(ps))
  }

  lemma {:induction false} ClientFollows(ps: seq<Piece>)
    requires IdsFirst(ps)
    ensures Follows(Accumulate(Wire(ps)), ps)
  {
    if ps == [] {
    } else {
      var before, p := ps[..|ps| - 1], ps[|ps| - 1];
      IdsFirstSplits(ps);
      ClientFollows(before);
      var ws := Wire(ps);
      assert ws[..|ws| - 1] == Wire(before);
      ClientStep(Accumulate(Wire(before)), before, p);
      assert ps == before + [p];
    }
  }

  lemma OnlyItsOwnCallChanges(before: seq<Piece>, p: Piece, i: nat)
    requires i != p.index
    ensures CallAt(before + [p], i) == CallAt(before, i)
  {
    assert (before + [p])[..|before|] == before;
  }

  /** A later piece of an index already seen changes that index's call only. */
  lemma LaterPiece(before: seq<Piece>, p: Piece, at: nat)
    requires !LateId(before, p) && at < |Order(before)| && Order(before)[at] == p.index
    ensures Order(before + [p]) == Order(before)
    ensures var call := CallAt(before, p.index);
            AnnouncedCalls(before + [p])
            == AnnouncedCalls(before)[at := Call(call.id,
                                              if call.id.None? && p.name.Some? then p.name else call.name,
                                              call.arguments + TextOf(p.arguments))]
  {
    var ps := before + [p];
    assert ps[..|ps| - 1] == before && ps[|ps| - 1] == p;
    OrderIsSeen(before, p.index);
    forall k | 0 <= k < |Order(before)| && k != at
      ensures CallAt(ps, Order(ps)[k]) == CallAt(before, Order(before)[k])
    {
      OnlyItsOwnCallChanges(before, p, Order(before)[k]);
    }
  }

  /** The first piece of an index opens its call. */
  lemma FirstPiece(before: seq<Piece>, p: Piece)
    requires p.index !in Order(before)
    ensures Order(before + [p]) == Order(before) + [p.index]
    ensures AnnouncedCalls(before + [p]) == AnnouncedCalls(before) + [Call(p.id, p.name, TextOf(p.arguments))]
  {
    var ps := before + [p];
    assert ps[..|ps| - 1] == before && ps[|ps| - 1] == p;
    OrderIsSeen(before, p.index);
    forall k | 0 <= k < |Order(before)| ensures CallAt(ps, Order(ps)[k]) == CallAt(before, Order(before)[k]) {
      OnlyItsOwnCallChanges(before, p, Order(before)[k]);
    }
    assert Arguments(ps, p.index) == TextOf(p.arguments) by {
      assert Arguments(ps, p.index) == "" + TextOf(p.arguments);
    }
    assert CallAt(ps, p.index) == Call(p.id, p.name, TextOf(p.arguments));
  }

  lemma ClientStep(c: Client, before: seq<Piece>, p: Piece)
    requires Follows(c, before) && !LateId(before, p)
    requires Sound(c)
    ensures Follows(Receive(c, Emit(Announced(before), p).call), before + [p])
  {
    hide Emit;
    hide ArgumentsOf;
    hide NameOf;
    AnnouncedMeansId(before, p.index);
    OrderIsSeen(before, p.index);
    EmitSays(Announced(before), p);
    if p.index in Order(before) {
      var at :| 0 <= at < |Order(before)| && Order(before)[at] == p.index;
      LaterPiece(before, p, at);
      hide Order;
    } else {
      FirstPiece(before, p);
      hide Order;
    }
  }

  /** Whatever the ids do, the client has a slot for every index seen and at
      least one call per index; a late id costs it one more. */
  lemma {:induction false} ClientNeverHasFewer(ps: seq<Piece>)
    ensures var c := Accumulate(Wire(ps));
            && (forall i :: i in c.slot <==> i in Order(ps))
            && |c.calls| >= |Order(ps)|
            && (!IdsFirst(ps) ==> |c.calls| > |Order(ps)|)
  {
    if ps == [] {
    } else {
      hide Emit;
      hide ArgumentsOf;
      hide NameOf;
      hide Wire;
      var before, p := ps[..|ps| - 1], ps[|ps| - 1];
      ClientNeverHasFewer(before);
      IdsFirstSplits(ps);
      WireGrows(ps);
      EmitSays(Announced(before), p);
      AnnouncedMeansId(before, p.index);
      OrderIsSeen(before, p.index);
      hide IdsFirst;
    }
  }

  lemma AnnouncedIsIntendedIff(ps: seq<Piece>)
    ensures AnnouncedCalls(ps) == IntendedCalls(ps) <==> NamesSettled(ps)
  {
    var told, meant := AnnouncedCalls(ps), IntendedCalls(ps);
    forall k | 0 <= k < |Order(ps)|
      ensures told[k] == meant[k] <==> (NameAfterTheId(ps, Order(ps)[k]).None?
                                        || NameAfterTheId(ps, Order(ps)[k]) == NameByTheId(ps, Order(ps)[k]))
    {
      NameSurvivesIff(ps, Order(ps)[k]);
      WirePerIndex(ps, Order(ps)[k]);
    }
    if told == meant {
      forall i | i in Order(ps) ensures NameAfterTheId(ps, i).None? || NameAfterTheId(ps, i) == NameByTheId(ps, i) {
        var k :| 0 <= k < |Order(ps)| && Order(ps)[k] == i;
        assert told[k] == meant[k];
      }
    }
  }

  /** The client ends with exactly the engine's calls, one per index in order of
      appearance with id, name and whole argument text, if and only if no id
      arrives at an index after its first piece and no index's last name after its
      id differs from its last by then. */
  lemma ClientRebuildsCallsIff(ps: seq<Piece>)
    ensures Accumulate(Wire(ps)).calls == IntendedCalls(ps) <==> IdsFirst(ps) && NamesSettled(ps)
  {
    hide IdsFirst;
    hide NamesSettled;
    hide Wire;
    hide Accumulate;
    if IdsFirst(ps) {
      ClientFollows(ps);
      AnnouncedIsIntendedIff(ps);
    } else {
      ClientNeverHasFewer(ps);
    }
  }

  /** An id that arrives after its call's first piece splits the call in two. */
  lemma LateIdSplitsTheCall()
    ensures var ps := [Piece(0, None, Some("read"), Some("{")), Piece(0, Some("call"), None, Some("}"))];
            |IntendedCalls(ps)| == 1 && |Accumulate(Wire(ps)).calls| == 2
  {
    var ps := [Piece(0, None, Some("read"), Some("{")), Piece(0, Some("call"), None, Some("}"))];
    var one := ps[..1];
    assert one[..0] == [];
    assert ps[..|ps| - 1] == one;
    assert Order(one) == [0];
    assert FirstId(one, 0) == None;
    assert LateId(ps[..1], ps[1]);
    ClientNeverHasFewer(ps);
    WireGrows(ps);
    WireGrows(one);
    hide Wire;
    assert |Accumulate(Wire(one)).calls| == 1;
  }

  // --------------------------------------------------- from the engine's frames

  function PieceOf(e: Event): Piece
    requires e.ToolCallDelta?
  {
    Piece(e.index, e.id, e.name, e.arguments)
  }

  /** The tool-call deltas among a stream's items. */
  function Pieces(items: seq<Item>): seq<Piece> {
    if items == [] then []
    else (if items[0].Ok? && items[0].value.ToolCallDelta? then [PieceOf(items[0].value)] else []) + Pieces(items[1..])
  }

  /** A call as the engine's JSON gives it: the index cut to 32 bits, or 0 when there
      is none; id and name when they say anything; the arguments as they are. */
  function Sent(call: CallJson): Piece {
    Piece(if call.index.Some? then Min(call.index.value, 0xFFFF_FFFF) else 0,
          if call.id.Some? && call.id.value != "" then call.id else None,
          if call.name.Some? && call.name.value != "" then call.name else None,
          call.arguments)
  }

  function CallPieces(calls: seq<CallJson>): seq<Piece> {
    if calls == [] then [] else [Sent(calls[0])] + CallPieces(calls[1..])
  }

  /** The event of a call says what the JSON's own fields say. */
  lemma CallEventSays(call: CallJson)
    ensures var e := CallEvent(call);
            && e.ToolCallDelta?
            && (forall x :: e.id == Some(x) <==> call.id == Some(x) && x != "")
            && (forall x :: e.name == Some(x) <==> call.name == Some(x) && x != "")
            && e.arguments == call.arguments
            && e.index == (if call.index.Some? then Min(call.index.value, 0xFFFF_FFFF) else 0)
            && PieceOf(e) == Sent(call)
  {
  }

  function FramePieces(frame: Frame): seq<Piece> {
    if frame.Chunk? && frame.choice.Some? && frame.choice.value.delta.Some?
    then CallPieces(frame.choice.value.delta.value.toolCalls) else []
  }

  function FramesPieces(frames: seq<Frame>): seq<Piece>
    decreases |frames|
  {
    if frames == [] then [] else FramePieces(frames[0]) + FramesPieces(frames[1..])
  }

  lemma {:induction false} PiecesAdd(a: seq<Item>, b: seq<Item>)
    ensures Pieces(a + b) == Pieces(a) + Pieces(b)
  {
    if a == [] {
      assert a + b == b;
    } else {
      assert (a + b)[1..] == a[1..] + b;
      PiecesAdd(a[1..], b);
    }
  }

  lemma {:induction false} CallPiecesPreserved(calls: seq<CallJson>)
    ensures Pieces(CallEvents(calls)) == CallPieces(calls)
  {
    hide CallEvent;
    if calls == [] {
    } else {
      CallPiecesPreserved(calls[1..]);
      assert CallEvents(calls)[1..] == CallEvents(calls[1..]);
      CallEventSays(calls[0]);
    }
  }

  lemma DeltaPiecesPreserved(delta: Delta)
    ensures Pieces(DeltaEvents(delta)) == CallPieces(delta.toolCalls)
  {
    PiecesAdd(Content(delta.content) + ReasoningOf(delta), CallEvents(delta.toolCalls));
    PiecesAdd(Content(delta.content), ReasoningOf(delta));
    CallPiecesPreserved(delta.toolCalls);
  }

  lemma ChoicePiecesPreserved(choice: Choice)
    ensures Pieces(ChoiceEvents(Some(choice)))
         == if choice.delta.Some? then CallPieces(choice.delta.value.toolCalls) else []
  {
    hide DeltaEvents;
    hide CallPieces;
    if choice.delta.Some? {
      DeltaPiecesPreserved(choice.delta.value);
      PiecesAdd(DeltaEvents(choice.delta.value), Content(choice.text));
    }
  }

  lemma OpeningHasNoPieces(f: Flags, timings: Option<Timings>)
    ensures Pieces(StartItems(f) + TimingItems(timings)) == []
  {
    PiecesAdd(StartItems(f), TimingItems(timings));
  }

  lemma EndsHaveNoPieces(f: Flags, frame: Frame)
    requires !frame.Chunk?
    ensures Pieces(Absorbed(f, frame).pushed) == []
  {
    hide UpstreamError;
    var items := Absorbed(f, frame).pushed;
    assert items != [] ==> items[1..] == [];
  }

  lemma NoChoiceNoPieces()
    ensures Pieces(ChoiceEvents(None)) == []
  {
  }

  lemma FramePiecesPreserved(f: Flags, frame: Frame)
    ensures Pieces(Absorbed(f, frame).pushed) == FramePieces(frame)
  {
    hide Pieces;
    hide CallPieces;
    hide ChoiceEvents;
    hide StartItems;
    hide TimingItems;
    if frame.Chunk? {
      OpeningHasNoPieces(f, frame.timings);
      PiecesAdd(StartItems(f) + TimingItems(frame.timings), ChoiceEvents(frame.choice));
      if frame.choice.Some? {
        ChoicePiecesPreserved(frame.choice.value);
      } else {
        NoChoiceNoPieces();
      }
    } else {
      EndsHaveNoPieces(f, frame);
    }
  }

  lemma {:induction false} FramesPiecesPreserved(f: Flags, frames: seq<Frame>)
    ensures Pieces(AbsorbedAll(f, frames).pushed) == FramesPieces(frames)
    decreases |frames|
  {
    if frames == [] {
    } else {
      hide Absorbed;
      hide FramePieces;
      var first := Absorbed(f, frames[0]);
      FramePiecesPreserved(f, frames[0]);
      FramesPiecesPreserved(first.flags, frames[1..]);
      PiecesAdd(first.pushed, AbsorbedAll(first.flags, frames[1..]).pushed);
    }
  }

  /** End to end, from the engine's frames to the client's calls, for every body,
      however its frames were grouped into reads and however it breaks off: the
      client ends with the calls of the delivered frames exactly when their ids
      come first and their names are settled. */
  lemma EngineCallsReachTheClient(body: seq<Read>)
    ensures var sent := FramesPieces(Flatten(Delivered(body)));
            Accumulate(Wire(Pieces(Output(FRESH, body, None)))).calls == IntendedCalls(sent) <==>
              IdsFirst(sent) && NamesSettled(sent)
    ensures StopsAtTerminal(Flatten(body)) ==> Flatten(Delivered(body)) == Flatten(body)
  {
    hide Output;
    hide Wire;
    hide Accumulate;
    hide IntendedCalls;
    hide AbsorbedAll;
    OutputIsFold(FRESH, body);
    FoldPieces(Flatten(Delivered(body)), Breakage(body));
    ClientRebuildsCallsIff(FramesPieces(Flatten(Delivered(body))));
    if StopsAtTerminal(Flatten(body)) {
      AllDelivered(body);
    }
  }

  lemma FoldPieces(frames: seq<Frame>, broken: Option<BackendError>)
    ensures Pieces(Fold(FRESH, frames, broken)) == FramesPieces(frames)
  {
    hide AbsorbedAll;
    var a := AbsorbedAll(FRESH, frames);
    FramesPiecesPreserved(FRESH, frames);
    PiecesAdd(a.pushed, Ending(a.flags, broken));
  }
}
