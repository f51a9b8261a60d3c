/**
 * The application layer (`App`): the buffer list, the window panes, the
 * normal-mode keys that take two presses (`dd`, `yy`, `q<reg>`, `@<reg>`)
 * with macro recording, the buffer and window commands, and two small
 * classifiers (status kind of a message, language of a path).
 *
 * A buffer's editor is represented by its text; the editor itself is
 * modelled in `EditorCore`.
 */
module App {
  import opened Wrappers
  import opened Ints
  import opened Unicode
  import opened Keys
  import opened Paths
  import opened StatusMessages
  import Commands

  // ---------------------------------------------------------------------
  // Buffers

  datatype Buffer = Buffer(id: nat, text: string, filePath: Option<string>, readonly: bool)

  /** `Buffer::new`: an empty editor, no file, writable. */
  function NewBuffer(id: nat): (b: Buffer)
    ensures b.id == id && b.text == [] && b.filePath == None && !b.readonly
  {
    Buffer(id, [], None, false)
  }

  /** What `delete_current` does to the last remaining buffer: a fresh editor, no file, writable, same id. */
  function ResetBuffer(b: Buffer): (r: Buffer)
    ensures r == NewBuffer(b.id)
  {
    b.(text := [], filePath := None, readonly := false)
  }

  /** Ids grow along the list, so no two buffers share one. */
  predicate IdsIncreasing(bs: seq<Buffer>) {
    forall i, j :: 0 <= i < j < |bs| ==> bs[i].id < bs[j].id
  }

  /** `find_index_by_id`: the position of the first buffer with the id. */
  function IndexOfId(bs: seq<Buffer>, id: nat): (r: Option<nat>)
    ensures r.Some? ==> r.value < |bs| && bs[r.value].id == id
    ensures r.Some? ==> forall j :: 0 <= j < r.value ==> bs[j].id != id
    ensures r.None? ==> forall j :: 0 <= j < |bs| ==> bs[j].id != id
  {
    if bs == [] then None
    else if bs[0].id == id then Some(0)
    else
      match IndexOfId(bs[1..], id)
      case Some(i) =>
        assert forall j :: 1 <= j < i + 1 ==> bs[j] == bs[1..][j - 1];
        Some(i + 1)
      case None =>
        assert forall j :: 1 <= j < |bs| ==> bs[j] == bs[1..][j - 1];
        None
  }

  /** The index `next_buffer` moves to. */
  function NextIndex(current: nat, n: nat): (r: nat)
    requires current < n
    ensures r < n
    ensures r == if current == n - 1 then 0 else current + 1
  {
    (current + 1) % n
  }

  /** The index `prev_buffer` moves to. */
  function PrevIndex(current: nat, n: nat): (r: nat)
    requires current < n
    ensures r < n
  {
    if current == 0 then n - 1 else current - 1
  }

  /** Going back undoes going forward, and the other way round. */
  lemma PrevUndoesNext(current: nat, n: nat)
    requires current < n
    ensures PrevIndex(NextIndex(current, n), n) == current
    ensures NextIndex(PrevIndex(current, n), n) == current
  {
  }

  /** `k` moves forward. */
  function Forward(current: nat, n: nat, k: nat): (r: nat)
    requires current < n
    ensures r < n
  {
    if k == 0 then current else NextIndex(Forward(current, n, k - 1), n)
  }

  /** Moves that do not reach the end of the list just add up. */
  lemma {:induction false} ForwardWithoutWrap(current: nat, n: nat, k: nat)
    requires current + k < n
    ensures Forward(current, n, k) == current + k
  {
    if k > 0 {
      ForwardWithoutWrap(current, n, k - 1);
    }
  }

  /** `a` moves then `b` moves are `a + b` moves. */
  lemma {:induction false} ForwardAdds(current: nat, n: nat, a: nat, b: nat)
    requires current < n
    ensures Forward(current, n, a + b) == Forward(Forward(current, n, a), n, b)
  {
    if b > 0 {
      ForwardAdds(current, n, a, b - 1);
    }
  }

  /** Moving forward once per buffer comes back to where it started. */
  lemma FullCycle(current: nat, n: nat)
    requires current < n
    ensures Forward(current, n, n) == current
  {
    ForwardWithoutWrap(current, n, n - 1 - current);
    ForwardAdds(current, n, n - 1 - current, 1);
    assert Forward(current, n, n - current) == 0;
    ForwardAdds(current, n, n - current, current);
    if current > 0 {
      ForwardWithoutWrap(0, n, current);
    }
  }

  class BufferManager {
    var buffers: seq<Buffer>
    var currentBuffer: nat
    var nextBufferId: nat

    /** Ids are increasing and all below the next id to hand out. */
    predicate IdsFresh()
      reads this
    {
      IdsIncreasing(buffers) && forall i :: 0 <= i < |buffers| ==> buffers[i].id < nextBufferId
    }

    /** Never empty, the current index in range, ids unique. */
    predicate Valid()
      reads this
    {
      0 < |buffers| && currentBuffer < |buffers| && IdsFresh()
    }

    /** `BufferManager::new`: one empty buffer with id 0. */
    constructor()
      ensures Valid()
      ensures buffers == [NewBuffer(0)] && currentBuffer == 0 && nextBufferId == 1
    {
      buffers := [];
      currentBuffer := 0;
      nextBufferId := 0;
      new;
      var _ := CreateBuffer();
    }

    /** `create_buffer`: a new buffer with the next id at the end of the list. */
    method CreateBuffer() returns (index: nat)
      modifies this
      ensures buffers == old(buffers) + [NewBuffer(old(nextBufferId))]
      ensures nextBufferId == old(nextBufferId) + 1 && currentBuffer == old(currentBuffer)
      ensures index == |buffers| - 1
      ensures old(IdsFresh()) ==> IdsFresh()
    {
      var id := nextBufferId;
      nextBufferId := nextBufferId + 1;
      buffers := buffers + [NewBuffer(id)];
      index := |buffers| - 1;
    }

    function CurrentBufferId(): nat
      requires Valid()
      reads this
    {
      buffers[currentBuffer].id
    }

    /** `next_buffer`: with a single buffer nothing moves; otherwise one on, wrapping to the first. */
    method NextBuffer() returns (r: Option<Buffer>)
      requires Valid()
      modifies this
      ensures Valid()
      ensures buffers == old(buffers) && nextBufferId == old(nextBufferId)
      ensures |buffers| <= 1 ==> r == None && currentBuffer == old(currentBuffer)
      ensures |buffers| > 1 ==>
        currentBuffer == NextIndex(old(currentBuffer), |buffers|) && r == Some(buffers[currentBuffer])
    {
      if |buffers| <= 1 {
        return None;
      }
      currentBuffer := (currentBuffer + 1) % |buffers|;
      r := Some(buffers[currentBuffer]);
    }

    /** `prev_buffer`: with a single buffer nothing moves; otherwise one back, wrapping to the last. */
    method PrevBuffer() returns (r: Option<Buffer>)
      requires Valid()
      modifies this
      ensures Valid()
      ensures buffers == old(buffers) && nextBufferId == old(nextBufferId)
      ensures |buffers| <= 1 ==> r == None && currentBuffer == old(currentBuffer)
      ensures |buffers| > 1 ==>
        currentBuffer == PrevIndex(old(currentBuffer), |buffers|) && r == Some(buffers[currentBuffer])
    {
      if |buffers| <= 1 {
        return None;
      }
      if currentBuffer == 0 {
        currentBuffer := |buffers| - 1;
      } else {
        currentBuffer := currentBuffer - 1;
      }
      r := Some(buffers[currentBuffer]);
    }

    /** `delete_current`: the last buffer is reset and kept; otherwise the
        current buffer is removed, its id returned, and the index kept in range. */
    method DeleteCurrent() returns (removed: Option<nat>)
      requires Valid()
      modifies this
      ensures Valid()
      ensures nextBufferId == old(nextBufferId)
      ensures |old(buffers)| <= 1 ==>
        removed == None && currentBuffer == old(currentBuffer) &&
        buffers == old(buffers)[old(currentBuffer) := ResetBuffer(old(buffers)[old(currentBuffer)])]
      ensures |old(buffers)| > 1 ==>
        removed == Some(old(buffers)[old(currentBuffer)].id) &&
        buffers == old(buffers)[..old(currentBuffer)] + old(buffers)[old(currentBuffer) + 1..] &&
        currentBuffer == (if old(currentBuffer) >= |buffers| then SaturatingSub(|buffers|, 1)
                          else old(currentBuffer))
      ensures removed.Some? ==> IndexOfId(buffers, removed.value) == None
    {
      if |buffers| <= 1 {
        buffers := buffers[currentBuffer := ResetBuffer(buffers[currentBuffer])];
        return None;
      }
      var c := currentBuffer;
      var gone := buffers[c];
      ghost var before := buffers;
      buffers := buffers[..c] + buffers[c + 1..];
      assert forall j :: 0 <= j < |buffers| ==> buffers[j] == (if j < c then before[j] else before[j + 1]);
      if currentBuffer >= |buffers| {
        currentBuffer := SaturatingSub(|buffers|, 1);
      }
      removed := Some(gone.id);
      forall j | 0 <= j < |buffers| ensures buffers[j].id != gone.id {
        if j < c {
          assert before[j].id < before[c].id;
        } else {
          assert before[c].id < before[j + 1].id;
        }
      }
    }
  }

  // ---------------------------------------------------------------------
  // Windows

  datatype SplitKind = NoSplit | Horizontal | Vertical

  datatype Pane = Pane(id: nat, bufferId: nat)

  /** The first pane whose id is (`same`) or is not (`!same`) the given one. */
  function FindPane(panes: seq<Pane>, id: nat, same: bool): (r: Option<nat>)
    ensures r.Some? ==> r.value < |panes| && (panes[r.value].id == id) == same
    ensures r.Some? ==> forall j :: 0 <= j < r.value ==> (panes[j].id == id) != same
    ensures r.None? ==> forall j :: 0 <= j < |panes| ==> (panes[j].id == id) != same
  {
    if panes == [] then None
    else if (panes[0].id == id) == same then Some(0)
    else
      match FindPane(panes[1..], id, same)
      case Some(i) =>
        assert forall j :: 1 <= j < i + 1 ==> panes[j] == panes[1..][j - 1];
        Some(i + 1)
      case None =>
        assert forall j :: 1 <= j < |panes| ==> panes[j] == panes[1..][j - 1];
        None
  }

  /** The panes with the one at `at`, if any, showing buffer `b`. */
  function Retarget(panes: seq<Pane>, at: Option<nat>, b: nat): (r: seq<Pane>)
    requires at.Some? ==> at.value < |panes|
    ensures |r| == |panes|
    ensures forall j :: 0 <= j < |r| ==> r[j].id == panes[j].id
    ensures forall j :: 0 <= j < |r| && at != Some(j) ==> r[j] == panes[j]
    ensures at.Some? ==> r[at.value].bufferId == b
  {
    match at
    case None => panes
    case Some(i) => panes[i := panes[i].(bufferId := b)]
  }

  class WindowManager {
    var panes: seq<Pane>
    var currentWindowId: nat
    var nextWindowId: nat
    var split: SplitKind

    /** One or two panes, with increasing ids below the next one to hand out. */
    predicate Valid()
      reads this
    {
      1 <= |panes| <= 2
      && (forall i, j :: 0 <= i < j < |panes| ==> panes[i].id < panes[j].id)
      && (forall i :: 0 <= i < |panes| ==> panes[i].id < nextWindowId)
    }

    /** `WindowManager::new`: one pane, id 0, showing the given buffer. */
    constructor(bufferId: nat)
      ensures Valid()
      ensures panes == [Pane(0, bufferId)] && currentWindowId == 0 && nextWindowId == 1
      ensures split == NoSplit
    {
      panes := [Pane(0, bufferId)];
      currentWindowId := 0;
      nextWindowId := 1;
      split := NoSplit;
    }

    /** `split`: a single pane gains a second one; with two, the first pane
        that is not the current window is pointed at the buffer. */
    method Split(bufferId: nat, kind: SplitKind)
      requires Valid()
      modifies this
      ensures Valid()
      ensures split == kind && currentWindowId == old(currentWindowId)
      ensures |old(panes)| < 2 ==>
        panes == old(panes) + [Pane(old(nextWindowId), bufferId)] && nextWindowId == old(nextWindowId) + 1
      ensures |old(panes)| >= 2 ==>
        panes == Retarget(old(panes), FindPane(old(panes), currentWindowId, false), bufferId) &&
        nextWindowId == old(nextWindowId)
      ensures |old(panes)| >= 2 ==>
        forall j :: 0 <= j < |panes| && panes[j] != old(panes)[j] ==> panes[j].id != currentWindowId
    {
      if |panes| < 2 {
        panes := panes + [Pane(nextWindowId, bufferId)];
        nextWindowId := nextWindowId + 1;
      } else {
        panes := Retarget(panes, FindPane(panes, currentWindowId, false), bufferId);
      }
      split := kind;
    }

    method SplitHorizontal(bufferId: nat)
      requires Valid()
      modifies this
      ensures Valid()
      ensures split == Horizontal && currentWindowId == old(currentWindowId)
      ensures |old(panes)| < 2 ==>
        panes == old(panes) + [Pane(old(nextWindowId), bufferId)] && nextWindowId == old(nextWindowId) + 1
      ensures |old(panes)| >= 2 ==>
        panes == Retarget(old(panes), FindPane(old(panes), currentWindowId, false), bufferId) &&
        nextWindowId == old(nextWindowId)
    {
      Split(bufferId, Horizontal);
    }

    method SplitVertical(bufferId: nat)
      requires Valid()
      modifies this
      ensures Valid()
      ensures split == Vertical && currentWindowId == old(currentWindowId)
      ensures |old(panes)| < 2 ==>
        panes == old(panes) + [Pane(old(nextWindowId), bufferId)] && nextWindowId == old(nextWindowId) + 1
      ensures |old(panes)| >= 2 ==>
        panes == Retarget(old(panes), FindPane(old(panes), currentWindowId, false), bufferId) &&
        nextWindowId == old(nextWindowId)
    {
      Split(bufferId, Vertical);
    }

    /** `set_buffer_for_current`: only the pane of the current window changes. */
    method SetBufferForCurrent(bufferId: nat)
      requires Valid()
      modifies this
      ensures Valid()
      ensures panes == Retarget(old(panes), FindPane(old(panes), currentWindowId, true), bufferId)
      ensures forall j :: 0 <= j < |panes| && panes[j] != old(panes)[j] ==> panes[j].id == currentWindowId
      ensures currentWindowId == old(currentWindowId) && nextWindowId == old(nextWindowId)
      ensures split == old(split)
    {
      panes := Retarget(panes, FindPane(panes, currentWindowId, true), bufferId);
    }

    /** The loop over `panes_mut` after a buffer is closed: every pane that
        showed `oldId` now shows `newId`. */
    method Repoint(oldId: nat, newId: nat)
      requires Valid()
      modifies this
      ensures Valid()
      ensures |panes| == |old(panes)|
      ensures forall j :: 0 <= j < |panes| ==>
        panes[j] == (if old(panes)[j].bufferId == oldId then old(panes)[j].(bufferId := newId) else old(panes)[j])
      ensures oldId != newId ==> forall j :: 0 <= j < |panes| ==> panes[j].bufferId != oldId
      ensures currentWindowId == old(currentWindowId) && nextWindowId == old(nextWindowId)
      ensures split == old(split)
    {
      var i := 0;
      while i < |panes|
        invariant 0 <= i <= |panes| == |old(panes)|
        invariant forall j :: 0 <= j < i ==>
          panes[j] == (if old(panes)[j].bufferId == oldId then old(panes)[j].(bufferId := newId) else old(panes)[j])
        invariant forall j :: i <= j < |panes| ==> panes[j] == old(panes)[j]
        invariant currentWindowId == old(currentWindowId) && nextWindowId == old(nextWindowId)
        invariant split == old(split)
      {
        if panes[i].bufferId == oldId {
          panes := panes[i := panes[i].(bufferId := newId)];
        }
        i := i + 1;
      }
    }
  }

  // ---------------------------------------------------------------------
  // Buffer and window commands

  datatype UiMessageKind = InfoMessage | SuccessMessage | WarningMessage

  /** The `:buffers` entry for one buffer: a star on the current one, the id and the file name. */
  function BufferEntry(b: Buffer, isCurrent: bool): string
  {
    var name := match b.filePath
      case Some(p) => (match FileName(p) case Some(n) => n case None => "[No Name]")
      case None => "[No Name]";
    (if isCurrent then "*" else " ") + Decimal(b.id) + ":" + name
  }

  function BufferEntries(bs: seq<Buffer>, current: nat, from: nat): (r: seq<string>)
    requires from <= |bs|
    ensures |r| == |bs| - from
    decreases |bs| - from
  {
    if from == |bs| then [] else [BufferEntry(bs[from], from == current)] + BufferEntries(bs, current, from + 1)
  }

  /** The `:buffers` listing. */
  function BufferList(bs: seq<Buffer>, current: nat): string
  {
    "バッファ一覧: " + Join(BufferEntries(bs, current, 0), ", ")
  }

  /** `apply_command_action` for the buffer and window commands. The file
      manager's file is then synchronised with the active buffer, which is
      outside this model. */
  method ApplyCommandAction(bm: BufferManager, wm: WindowManager, action: Commands.CommandAction)
    returns (r: Option<(UiMessageKind, string)>)
    requires bm.Valid() && wm.Valid()
    modifies bm, wm
    ensures bm.Valid() && wm.Valid()
    ensures action == Commands.NoAction ==> r == None
    ensures action.Buffer? && action.buffer == Commands.DeleteCurrent && |old(bm.buffers)| > 1 ==>
      forall j :: 0 <= j < |wm.panes| ==> wm.panes[j].bufferId != old(bm.buffers)[old(bm.currentBuffer)].id
    ensures action.Buffer? && action.buffer == Commands.DeleteCurrent ==>
      (|old(bm.buffers)| > 1 <==> r == Some((SuccessMessage, "現在のバッファを閉じました")))
    ensures (action.Buffer? && action.buffer in {Commands.Next, Commands.Previous}
      && |bm.buffers| <= 1) ==>
      r == Some((WarningMessage, "切り替え可能なバッファがありません"))
    ensures action.Buffer? && action.buffer in {Commands.Next, Commands.Previous} ==>
      bm.buffers == old(bm.buffers) && bm.nextBufferId == old(bm.nextBufferId)
    ensures action.Buffer? && action.buffer in {Commands.Next, Commands.Previous} && |bm.buffers| <= 1 ==>
      bm.currentBuffer == old(bm.currentBuffer) && wm.panes == old(wm.panes)
    ensures action.Buffer? && action.buffer == Commands.Next && |bm.buffers| > 1 ==>
      bm.currentBuffer == NextIndex(old(bm.currentBuffer), |bm.buffers|)
      && wm.panes == Retarget(old(wm.panes), FindPane(old(wm.panes), wm.currentWindowId, true), bm.CurrentBufferId())
      && r == Some((InfoMessage, "次のバッファに切り替えました"))
    ensures action.Buffer? && action.buffer == Commands.Previous && |bm.buffers| > 1 ==>
      bm.currentBuffer == PrevIndex(old(bm.currentBuffer), |bm.buffers|)
      && wm.panes == Retarget(old(wm.panes), FindPane(old(wm.panes), wm.currentWindowId, true), bm.CurrentBufferId())
      && r == Some((InfoMessage, "前のバッファに切り替えました"))
    ensures action.Buffer? && action.buffer == Commands.List ==>
      r == Some((InfoMessage, BufferList(bm.buffers, bm.currentBuffer)))
      && bm.buffers == old(bm.buffers) && bm.currentBuffer == old(bm.currentBuffer) && wm.panes == old(wm.panes)
    ensures action.Window? ==>
      bm.buffers == old(bm.buffers) && bm.currentBuffer == old(bm.currentBuffer)
      && wm.split == (if action.window == Commands.SplitHorizontal then Horizontal else Vertical)
      && r == Some((InfoMessage, if action.window == Commands.SplitHorizontal then "水平分割を行いました" else "垂直分割を行いました"))
    ensures action.Window? && |old(wm.panes)| < 2 ==>
      wm.panes == old(wm.panes) + [Pane(old(wm.nextWindowId), bm.CurrentBufferId())]
    ensures action.Window? && |old(wm.panes)| >= 2 ==>
      wm.panes == Retarget(old(wm.panes), FindPane(old(wm.panes), wm.currentWindowId, false), bm.CurrentBufferId())
    ensures action.Window? ==>
      wm.nextWindowId == (if |old(wm.panes)| < 2 then old(wm.nextWindowId) + 1 else old(wm.nextWindowId))
    ensures action.Buffer? && action.buffer == Commands.DeleteCurrent && |old(bm.buffers)| <= 1 ==>
      bm.buffers == old(bm.buffers)[old(bm.currentBuffer) := ResetBuffer(old(bm.buffers)[old(bm.currentBuffer)])]
      && bm.currentBuffer == old(bm.currentBuffer)
      && wm.panes == Retarget(old(wm.panes), FindPane(old(wm.panes), wm.currentWindowId, true), bm.CurrentBufferId())
      && r == Some((WarningMessage, "最後のバッファを初期化しました"))
    ensures action.Buffer? && action.buffer == Commands.DeleteCurrent && |old(bm.buffers)| > 1 ==>
      bm.buffers == old(bm.buffers)[..old(bm.currentBuffer)] + old(bm.buffers)[old(bm.currentBuffer) + 1..]
      && bm.currentBuffer == (if old(bm.currentBuffer) >= |bm.buffers| then |bm.buffers| - 1 else old(bm.currentBuffer))
    ensures action.Buffer? && action.buffer == Commands.DeleteCurrent && |old(bm.buffers)| > 1 ==>
      var shown := Retarget(old(wm.panes), FindPane(old(wm.panes), wm.currentWindowId, true), bm.CurrentBufferId());
      var gone := old(bm.buffers)[old(bm.currentBuffer)].id;
      |wm.panes| == |shown|
      && forall j :: 0 <= j < |shown| ==>
        wm.panes[j] == (if shown[j].bufferId == gone then shown[j].(bufferId := bm.CurrentBufferId()) else shown[j])
    ensures bm.nextBufferId == old(bm.nextBufferId) && wm.currentWindowId == old(wm.currentWindowId)
    ensures action.Buffer? ==> wm.split == old(wm.split) && wm.nextWindowId == old(wm.nextWindowId)
    ensures action.NoAction? ==>
      bm.buffers == old(bm.buffers) && bm.currentBuffer == old(bm.currentBuffer)
      && wm.panes == old(wm.panes) && wm.split == old(wm.split) && wm.nextWindowId == old(wm.nextWindowId)
  {
    match action {
      case NoAction =>
        r := None;
      case Buffer(command) =>
        match command {
          case Next =>
            var moved := bm.NextBuffer();
            if moved.Some? {
              wm.SetBufferForCurrent(bm.CurrentBufferId());
              r := Some((InfoMessage, "次のバッファに切り替えました"));
            } else {
              r := Some((WarningMessage, "切り替え可能なバッファがありません"));
            }
          case Previous =>
            var moved := bm.PrevBuffer();
            if moved.Some? {
              wm.SetBufferForCurrent(bm.CurrentBufferId());
              r := Some((InfoMessage, "前のバッファに切り替えました"));
            } else {
              r := Some((WarningMessage, "切り替え可能なバッファがありません"));
            }
          case List =>
            r := Some((InfoMessage, BufferList(bm.buffers, bm.currentBuffer)));
          case DeleteCurrent =>
            var removed := bm.DeleteCurrent();
            var active := bm.CurrentBufferId();
            wm.SetBufferForCurrent(active);
            if removed.Some? {
              assert bm.buffers[bm.currentBuffer].id == active;
              wm.Repoint(removed.value, active);
              r := Some((SuccessMessage, "現在のバッファを閉じました"));
            } else {
              r := Some((WarningMessage, "最後のバッファを初期化しました"));
            }
        }
      case Window(command) =>
        var id := bm.CurrentBufferId();
        match command {
          case SplitHorizontal =>
            wm.SplitHorizontal(id);
            r := Some((InfoMessage, "水平分割を行いました"));
          case SplitVertical =>
            wm.SplitVertical(id);
            r := Some((InfoMessage, "垂直分割を行いました"));
        }
    }
  }

  // ---------------------------------------------------------------------
  // Normal-mode keys taking two presses, and macros

  /** The state the two-press keys work on. */
  datatype KeyState = KeyState(
    lastKey: Option<char>,
    recording: bool,
    register: Option<char>,
    keys: seq<KeyEvent>,
    registers: map<char, seq<KeyEvent>>)

  /** What a normal-mode key does besides changing the `KeyState`. */
  datatype NormalAction =
    | DeleteLine                                  // second `d`
    | YankLine                                    // second `y`
    | Awaiting                                    // first press of a two-press key
    | StartedRecording(into: char)
    | StoppedRecording(stored: Option<char>)
    | Replay(from: char, recorded: Option<seq<KeyEvent>>)
    | Pass(key: KeyEvent)                         // handled by the single-key bindings

  /** `start_macro_recording`: recording into `register`, from no keys. */
  function StartRecording(s: KeyState, register: char): (r: KeyState)
    ensures r.recording && r.register == Some(register) && r.keys == []
    ensures r.lastKey == s.lastKey && r.registers == s.registers
  {
    s.(recording := true, register := Some(register), keys := [])
  }

  /** `stop_macro_recording`: the keys go into the register being recorded,
      then recording, register and keys are reset. */
  function StopRecording(s: KeyState): (r: KeyState)
    ensures !r.recording && r.register == None && r.keys == [] && r.lastKey == s.lastKey
    ensures s.register.Some? ==> r.registers == s.registers[s.register.value := s.keys]
    ensures s.register.None? ==> r.registers == s.registers
  {
    var registers := match s.register
      case Some(c) => s.registers[c := s.keys]
      case None => s.registers;
    s.(recording := false, register := None, keys := [], registers := registers)
  }

  /** `play_macro`: the keys recorded under the register, if any. Their
      replay through the key handlers is not part of this model. */
  function Lookup(s: KeyState, register: char): (r: Option<seq<KeyEvent>>)
    ensures r.Some? <==> register in s.registers
    ensures r.Some? ==> r.value == s.registers[register]
  {
    if register in s.registers then Some(s.registers[register]) else None
  }

  /** Keys that do not end a pending `d`, `y` or `q` before they are looked at. */
  predicate KeepsPending(k: KeyEvent) {
    k.code == Char('d') || k.code == Char('y') || k.code == Char('q')
  }

  /** The key is kept while recording, unless it is the `q` that stops it. */
  function Record(s: KeyState, k: KeyEvent): (r: KeyState)
    ensures r.recording == s.recording && r.register == s.register && r.lastKey == s.lastKey
    ensures r.registers == s.registers
    ensures s.recording && k.code != Char('q') ==> r.keys == s.keys + [k]
    ensures !(s.recording && k.code != Char('q')) ==> r.keys == s.keys
  {
    if s.recording && k.code != Char('q') then s.(keys := s.keys + [k]) else s
  }

  /** The letters bound to cursor movement: `h`, `j`, `k` and `l`. */
  predicate MovementChar(c: char) {
    c == 'h' || c == 'j' || c == 'k' || c == 'l'
  }

  /** The arms of `handle_normal_mode_key` after the pending key has been
      cleared or kept, in the source's order: the movement letters, then `q`,
      `@`, a register name, `d` and `y`. */
  function Arms(s: KeyState, k: KeyEvent): (KeyState, NormalAction)
  {
    match k.code
    case Char(c) =>
      if MovementChar(c) then (s, Pass(k))
      else if c == 'q' then
        if s.lastKey == Some('q') then
          ((if s.recording then StopRecording(s) else s).(lastKey := None),
           if s.recording then StoppedRecording(s.register) else Awaiting)
        else if s.recording then (StopRecording(s), StoppedRecording(s.register))
        else (s.(lastKey := Some('q')), Awaiting)
      else if c == '@' then (s.(lastKey := Some('@')), Awaiting)
      else if s.lastKey == Some('q') && !s.recording then
        (StartRecording(s, c).(lastKey := None), StartedRecording(c))
      else if s.lastKey == Some('@') then (s.(lastKey := None), Replay(c, Lookup(s, c)))
      else if c == 'd' then
        if s.lastKey == Some('d') then (s.(lastKey := None), DeleteLine) else (s.(lastKey := Some('d')), Awaiting)
      else if c == 'y' then
        if s.lastKey == Some('y') then (s.(lastKey := None), YankLine) else (s.(lastKey := Some('y')), Awaiting)
      else (s, Pass(k))
    case _ => (s, Pass(k))
  }

  /** `handle_normal_mode_key` as written: any key other than `d`, `y` and
      `q` clears the pending key before the arms are tried, so the register
      name after `q` or `@` is lost unless it is `d` or `y`. */
  function NormalKeyAsWritten(s: KeyState, k: KeyEvent): (KeyState, NormalAction)
  {
    var t := Record(s, k);
    Arms(if !KeepsPending(k) && t.lastKey.Some? then t.(lastKey := None) else t, k)
  }

  /** `handle_normal_mode_key` as evidently intended: a pending `q` or `@`
      survives until the register name arrives. A movement letter still
      moves the cursor and clears it, since its arm comes first. */
  function NormalKey(s: KeyState, k: KeyEvent): (KeyState, NormalAction)
  {
    var t := Record(s, k);
    var pendingRegister := t.lastKey == Some('q') || t.lastKey == Some('@');
    var keep := KeepsPending(k) || (pendingRegister && k.code.Char? && !MovementChar(k.code.c));
    Arms(if !keep && t.lastKey.Some? then t.(lastKey := None) else t, k)
  }

  /** The two agree whenever no register name is awaited. */
  lemma CorrectionOnlyAffectsRegisters(s: KeyState, k: KeyEvent)
    requires s.lastKey != Some('q') && s.lastKey != Some('@')
    ensures NormalKey(s, k) == NormalKeyAsWritten(s, k)
  {
  }

  function Idle(): KeyState {
    KeyState(None, false, None, [], map[])
  }

  /** As written, `q` followed by a register name other than `d` or `y`
      starts no recording: the `a` of `qa` is passed on as a plain key. */
  lemma QaStartsNoRecording()
    ensures var k1 := NormalKeyAsWritten(Idle(), KeyEvent(Char('q'), {}));
      var k2 := NormalKeyAsWritten(k1.0, KeyEvent(Char('a'), {}));
      k1.0.lastKey == Some('q') && !k2.0.recording && k2.1 == Pass(KeyEvent(Char('a'), {}))
  {
  }

  /** Movement keys, and keys that are not characters, are handled alike by
      both: they clear a pending key in either. */
  lemma MovementAgrees(s: KeyState, k: KeyEvent)
    requires k.code.Char? ==> MovementChar(k.code.c)
    ensures NormalKey(s, k) == NormalKeyAsWritten(s, k)
    ensures NormalKey(s, k).1 == Pass(k) && NormalKey(s, k).0.lastKey == None
  {
  }

  /** Corrected, `q` followed by any register name other than `q`, `@` and a
      movement letter starts recording into it. */
  lemma QThenRegisterStartsRecording(s: KeyState, c: char, mods: set<Modifier>)
    requires !s.recording && s.lastKey != Some('q') && c != 'q' && c != '@' && !MovementChar(c)
    ensures var k1 := NormalKey(s, KeyEvent(Char('q'), mods));
      var k2 := NormalKey(k1.0, KeyEvent(Char(c), mods));
      k2.0.recording && k2.0.register == Some(c) && k2.0.keys == [] && k2.0.lastKey == None
      && k2.1 == StartedRecording(c) && k2.0.registers == s.registers
  {
  }

  /** Corrected, `@` followed by a register name that is not a movement
      letter replays what was stored there. */
  lemma AtThenRegisterReplays(s: KeyState, c: char, mods: set<Modifier>)
    requires !s.recording && c != 'q' && c != '@' && !MovementChar(c)
    ensures var k1 := NormalKey(s, KeyEvent(Char('@'), mods));
      var k2 := NormalKey(k1.0, KeyEvent(Char(c), mods));
      k2.1 == Replay(c, Lookup(s, c)) && k2.0.lastKey == None && k2.0.registers == s.registers
  {
  }

  /** `dd` deletes the line on the second press, whatever came before. */
  lemma DoubleDDeletesLine(s: KeyState, mods: set<Modifier>)
    requires s.lastKey == None
    ensures var k1 := NormalKey(s, KeyEvent(Char('d'), mods));
      var k2 := NormalKey(k1.0, KeyEvent(Char('d'), mods));
      k1.1 == Awaiting && k1.0.lastKey == Some('d') && k2.1 == DeleteLine && k2.0.lastKey == None
  {
  }

  /** `yy` yanks the line on the second press. */
  lemma DoubleYYanksLine(s: KeyState, mods: set<Modifier>)
    requires s.lastKey == None
    ensures var k1 := NormalKey(s, KeyEvent(Char('y'), mods));
      var k2 := NormalKey(k1.0, KeyEvent(Char('y'), mods));
      k1.1 == Awaiting && k2.1 == YankLine && k2.0.lastKey == None
  {
  }

  /** A `d` followed by a key other than `d`, `y` and `q` deletes nothing and forgets the `d`. */
  lemma InterruptedDeleteIsForgotten(s: KeyState, k: KeyEvent)
    requires s.lastKey == Some('d') && !KeepsPending(k) && k.code != Char('@')
    ensures NormalKey(s, k).1 == Pass(k) && NormalKey(s, k).0.lastKey == None
  {
  }

  /** The state after a run of keys, and what the last one did. */
  function Run(s: KeyState, ks: seq<KeyEvent>): KeyState
  {
    if ks == [] then s else NormalKey(Run(s, ks[..|ks| - 1]), ks[|ks| - 1]).0
  }

  /** While recording, every key but `q` is appended, and nothing sets a pending `q`. */
  lemma {:induction false} RecordingKeepsKeys(s: KeyState, ks: seq<KeyEvent>)
    requires s.recording && s.lastKey != Some('q')
    requires forall i :: 0 <= i < |ks| ==> ks[i].code != Char('q')
    ensures var r := Run(s, ks);
      r.recording && r.register == s.register && r.keys == s.keys + ks &&
      r.lastKey != Some('q') && r.registers == s.registers
  {
    if ks != [] {
      var init := ks[..|ks| - 1];
      RecordingKeepsKeys(s, init);
      RecordingKeyStep(Run(s, init), ks[|ks| - 1]);
      assert s.keys + init + [ks[|ks| - 1]] == s.keys + ks;
    }
  }

  /** While recording, a key other than `q` is appended to the recorded keys
      and leaves the rest of the recording state alone. */
  lemma RecordingKeyStep(r: KeyState, k: KeyEvent)
    requires r.recording && r.lastKey != Some('q') && k.code != Char('q')
    ensures var n := NormalKey(r, k).0;
      n.recording && n.register == r.register && n.keys == r.keys + [k] &&
      n.lastKey != Some('q') && n.registers == r.registers
  {
  }

  /** Record a run of keys into a register, stop with `q`, and the register
      holds exactly that run. */
  lemma {:induction false} RecordThenStopStores(s: KeyState, c: char, ks: seq<KeyEvent>, mods: set<Modifier>)
    requires s.recording && s.register == Some(c) && s.keys == [] && s.lastKey != Some('q')
    requires forall i :: 0 <= i < |ks| ==> ks[i].code != Char('q')
    ensures var r := NormalKey(Run(s, ks), KeyEvent(Char('q'), mods));
      !r.0.recording && r.1 == StoppedRecording(Some(c)) && r.0.registers == s.registers[c := ks]
  {
    RecordingKeepsKeys(s, ks);
    assert s.keys + ks == ks;
  }

  /** A status line message and its kind. */
  datatype Status = Status(kind: MessageType, text: string)

  /** The messages a normal-mode action shows, in order (a replay's own
      keys may show more in between, which is not part of this model). */
  function ActionStatus(a: NormalAction): seq<Status>
  {
    match a
    case DeleteLine => [Status(Success, "行を削除してヤンクしました")]
    case YankLine => [Status(Success, "行をヤンクしました")]
    case StartedRecording(c) => [Status(Info, "レジスタ '" + [c] + "' にマクロを記録中")]
    case StoppedRecording(stored) =>
      (match stored
       case Some(c) => [Status(Success, "レジスタ '" + [c] + "' にマクロを記録しました")]
       case None => [])
    case Replay(c, recorded) =>
      (match recorded
       case Some(_) => [Status(Info, "レジスタ '" + [c] + "' のマクロを再生します"),
                        Status(Success, "マクロの再生が完了しました")]
       case None => [Status(Warning, "レジスタ '" + [c] + "' にマクロは登録されていません")])
    case Awaiting => []
    case Pass(_) => []
  }

  /** The application's key and macro fields. */
  class KeyHandler {
    var lastKey: Option<char>
    var macroRecording: bool
    var macroRegister: Option<char>
    var macroKeys: seq<KeyEvent>
    var macroRegisters: map<char, seq<KeyEvent>>

    function State(): KeyState
      reads this
    {
      KeyState(lastKey, macroRecording, macroRegister, macroKeys, macroRegisters)
    }

    constructor()
      ensures State() == Idle()
    {
      lastKey := None;
      macroRecording := false;
      macroRegister := None;
      macroKeys := [];
      macroRegisters := map[];
    }

    method StartMacroRecording(register: char) returns (status: Status)
      modifies this
      ensures State() == StartRecording(old(State()), register)
      ensures [status] == ActionStatus(StartedRecording(register))
    {
      macroRecording := true;
      macroRegister := Some(register);
      macroKeys := [];
      status := Status(Info, "レジスタ '" + [register] + "' にマクロを記録中");
    }

    method StopMacroRecording() returns (status: seq<Status>)
      modifies this
      ensures State() == StopRecording(old(State()))
      ensures status == ActionStatus(StoppedRecording(old(macroRegister)))
    {
      status := [];
      match macroRegister {
        case Some(c) =>
          macroRegisters := macroRegisters[c := macroKeys];
          status := [Status(Success, "レジスタ '" + [c] + "' にマクロを記録しました")];
        case None =>
      }
      macroRecording := false;
      macroRegister := None;
      macroKeys := [];
    }

    /** `handle_normal_mode_key` for the keys this model covers, with the
        pending register kept as `NormalKey` describes. */
    method HandleNormalKey(k: KeyEvent) returns (action: NormalAction)
      modifies this
      ensures (State(), action) == NormalKey(old(State()), k)
    {
      if macroRecording && k.code != Char('q') {
        macroKeys := macroKeys + [k];
      }
      var pendingRegister := lastKey == Some('q') || lastKey == Some('@');
      if !(KeepsPending(k) || (pendingRegister && k.code.Char? && !MovementChar(k.code.c))) && lastKey.Some? {
        lastKey := None;
      }
      match k.code {
        case Char(c) =>
          if MovementChar(c) {
            action := Pass(k);
          } else if c == 'q' {
            if lastKey == Some('q') {
              action := Awaiting;
              if macroRecording {
                action := StoppedRecording(macroRegister);
                var _ := StopMacroRecording();
              }
              lastKey := None;
            } else if macroRecording {
              action := StoppedRecording(macroRegister);
              var _ := StopMacroRecording();
            } else {
              lastKey := Some('q');
              action := Awaiting;
            }
          } else if c == '@' {
            lastKey := Some('@');
            action := Awaiting;
          } else if lastKey == Some('q') && !macroRecording {
            var _ := StartMacroRecording(c);
            lastKey := None;
            action := StartedRecording(c);
          } else if lastKey == Some('@') {
            action := Replay(c, Lookup(State(), c));
            lastKey := None;
          } else if c == 'd' {
            if lastKey == Some('d') {
              lastKey := None;
              action := DeleteLine;
            } else {
              lastKey := Some('d');
              action := Awaiting;
            }
          } else if c == 'y' {
            if lastKey == Some('y') {
              lastKey := None;
              action := YankLine;
            } else {
              lastKey := Some('y');
              action := Awaiting;
            }
          } else {
            action := Pass(k);
          }
        case _ =>
          action := Pass(k);
      }
    }
  }

  // ---------------------------------------------------------------------
  // Classifiers

  /** `str::contains` for a string pattern. */
  predicate Contains(s: string, sub: string) {
    exists i :: 0 <= i <= |s| - |sub| && OccursAt(s, sub, i)
  }

  predicate OccursAt(s: string, sub: string, i: int) {
    0 <= i <= |s| - |sub| && s[i..i + |sub|] == sub
  }

  const Written := "書き込みました"
  const Saved := "保存しました"
  const Unsaved := "変更が保存されていません"

  /** `classify_message`: success for a write or a save, a warning for unsaved changes, else information. */
  function ClassifyMessage(message: string): (r: UiMessageKind)
    ensures r == SuccessMessage <==> Contains(message, Written) || Contains(message, Saved)
    ensures r == WarningMessage <==>
      !Contains(message, Written) && !Contains(message, Saved) && Contains(message, Unsaved)
    ensures r == InfoMessage <==>
      !Contains(message, Written) && !Contains(message, Saved) && !Contains(message, Unsaved)
  {
    if Contains(message, Written) || Contains(message, Saved) then SuccessMessage
    else if Contains(message, Unsaved) then WarningMessage
    else InfoMessage
  }

  /** A string without some character of a pattern does not contain it. */
  lemma MissingCharNotContained(s: string, sub: string, k: nat)
    requires k < |sub| && sub[k] !in s
    ensures !Contains(s, sub)
  {
    forall i | 0 <= i <= |s| - |sub| ensures !OccursAt(s, sub, i) {
      assert s[i..i + |sub|][k] == s[i + k];
    }
  }

  /** The `:q` refusal on a modified buffer shows as a warning. */
  lemma UnsavedQuitIsWarning()
    ensures ClassifyMessage(Commands.UnsavedWarning) == WarningMessage
  {
    var m := Commands.UnsavedWarning;
    assert OccursAt(m, Unsaved, 0);
    MissingCharNotContained(m, Written, 0);
    MissingCharNotContained(m, Saved, 2);
  }

  /** A line count report from a write shows as a success. */
  lemma WriteReportIsSuccess(lines: nat)
    ensures ClassifyMessage(Decimal(lines) + " 行を書き込みました") == SuccessMessage
  {
    var m := Decimal(lines) + " 行を書き込みました";
    var i := |Decimal(lines)| + 3;
    assert OccursAt(m, Written, i);
  }

  /** `detect_language_id`: the LSP language identifier for a path's extension. */
  function DetectLanguageId(path: string): (r: string)
    ensures Extension(path).None? ==> r == "plaintext"
    ensures r in {"rust", "markdown", "javascript", "typescript", "javascriptreact", "typescriptreact",
      "python", "json", "yaml", "toml", "html", "css", "sql", "shellscript", "plaintext"}
  {
    match Extension(path)
    case None => "plaintext"
    case Some(ext) => LanguageOfExtension(ext)
  }

  /** The editor's language id for a file extension; any other extension is plain text. */
  function LanguageOfExtension(ext: string): string {
    if ext == "rs" then "rust"
    else if ext == "md" then "markdown"
    else if ext == "js" then "javascript"
    else if ext == "ts" then "typescript"
    else if ext == "jsx" then "javascriptreact"
    else if ext == "tsx" then "typescriptreact"
    else if ext == "py" then "python"
    else if ext == "json" then "json"
    else if ext == "yaml" || ext == "yml" then "yaml"
    else if ext == "toml" then "toml"
    else if ext == "html" then "html"
    else if ext == "css" then "css"
    else if ext == "sql" then "sql"
    else if ext == "sh" then "shellscript"
    else "plaintext"
  }


  /** A Markdown file, the editor's own format, is detected as Markdown. */
  lemma MarkdownDetected(stem: string)
    requires stem != [] && '/' !in stem && '.' !in stem
    ensures DetectLanguageId(stem + ".md") == "markdown"
  {
    ExtensionOfBareName(stem, "md");
    assert stem + "." + "md" == stem + ".md";
    assert LanguageOfExtension("md") == "markdown";
  }

}
