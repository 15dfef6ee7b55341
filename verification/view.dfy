/** The view manager: the mouse-look callback, the per-frame keyboard poll
    with its projection toggle, and the per-frame view preparation that
    measures frame time, picks the projection and uploads the camera
    uniforms. The camera object itself is outside the model: the calls made
    on it are recorded, and its pose after those calls is an input. */
module View {
  import opened Gpu

  const WindowWidth: int := 1000
  const WindowHeight: int := 800

  const ViewName: string := "view"
  const ProjectionName: string := "projection"
  const ViewPositionName: string := "viewPosition"

  /** Half the width of the orthographic view volume. */
  const OrthoSize: real := 10.0
  const NearPlane: real := 0.1
  const FarPlane: real := 100.0

  // ---------------------------------------------------------------------
  // Mouse

  /** The last cursor position seen, and whether no position has been seen
      yet. */
  datatype Mouse = Mouse(lastX: real, lastY: real, firstMouse: bool)

  /** Before any callback the last position is the window centre. */
  const InitialMouse: Mouse := Mouse(WindowWidth as real / 2.0, WindowHeight as real / 2.0, true)

  /** The new mouse state and the offsets handed to the camera. */
  datatype MouseStep = MouseStep(mouse: Mouse, xOffset: real, yOffset: real)

  /** One cursor-position callback at (x, y). The first one only records
      the position, so it moves the camera by nothing wherever the cursor
      starts; later ones move it by the distance travelled, y inverted
      because screen y grows downwards. */
  function MousePositionCallback(m: Mouse, x: real, y: real): (r: MouseStep)
    ensures r.mouse == Mouse(x, y, false)
    ensures m.firstMouse ==> r.xOffset == 0.0 && r.yOffset == 0.0
    ensures !m.firstMouse ==> r.xOffset == x - m.lastX && r.yOffset == m.lastY - y
  {
    var last := if m.firstMouse then Mouse(x, y, false) else m;
    MouseStep(Mouse(x, y, false), x - last.lastX, last.lastY - y)
  }

  datatype Cursor = Cursor(x: real, y: real)

  /** The mouse state after a run of callbacks, and the offsets handed to
      the camera summed over the run. */
  datatype MouseTotals = MouseTotals(mouse: Mouse, dx: real, dy: real)

  function Replay(m: Mouse, path: seq<Cursor>): (r: MouseTotals)
    decreases |path|
  {
    if |path| == 0 then MouseTotals(m, 0.0, 0.0)
    else
      var step := MousePositionCallback(m, path[0].x, path[0].y);
      var rest := Replay(step.mouse, path[1..]);
      MouseTotals(rest.mouse, step.xOffset + rest.dx, step.yOffset + rest.dy)
  }

  /** The offsets telescope: over any run of callbacks the camera turns by
      the cursor's displacement from where it was first seen (or last seen,
      if it had been seen before) to where it was last seen, never by the
      jump from the window centre to the first position. */
  lemma {:induction false} ReplayTelescopes(m: Mouse, path: seq<Cursor>)
    requires |path| > 0
    ensures var r := Replay(m, path);
            var start := if m.firstMouse then path[0] else Cursor(m.lastX, m.lastY);
            var end := path[|path| - 1];
            && r.mouse == Mouse(end.x, end.y, false)
            && r.dx == end.x - start.x
            && r.dy == start.y - end.y
    decreases |path|
  {
    if |path| > 1 {
      var step := MousePositionCallback(m, path[0].x, path[0].y);
      ReplayTelescopes(step.mouse, path[1..]);
      assert path[1..][|path[1..]| - 1] == path[|path| - 1];
    }
  }

  // ---------------------------------------------------------------------
  // Keyboard

  /** Which keys the poll finds pressed. */
  datatype Keys = Keys(escape: bool, w: bool, s: bool, a: bool, d: bool, p: bool)

  datatype Direction = Forward | Backward | Left | Right

  /** One `ProcessKeyboard(direction, deltaTime)` call on the camera. */
  datatype CameraMove = CameraMove(direction: Direction, deltaTime: real)

  /** The key that moves the camera in `d`. */
  predicate Pressed(keys: Keys, d: Direction)
  {
    match d
    case Forward => keys.w
    case Backward => keys.s
    case Left => keys.a
    case Right => keys.d
  }

  /** The order in which the poll checks the movement keys. */
  function Rank(d: Direction): nat
  {
    match d
    case Forward => 0
    case Backward => 1
    case Left => 2
    case Right => 3
  }

  datatype KeyboardOutcome = KeyboardOutcome(closeRequested: bool, moves: seq<CameraMove>, orthographic: bool)

  /** The movement keys in the order the poll checks them. */
  const PollOrder: seq<Direction> := [Forward, Backward, Left, Right]

  /** Check each direction of `order` in turn and move the camera for each
      one whose key is pressed. */
  function Dispatch(keys: Keys, order: seq<Direction>, deltaTime: real): (r: seq<CameraMove>)
    ensures forall i :: 0 <= i < |r| ==> r[i].deltaTime == deltaTime
    ensures forall i :: 0 <= i < |r| ==> r[i].direction in order
  {
    if |order| == 0 then []
    else
      var first := if Pressed(keys, order[0]) then [CameraMove(order[0], deltaTime)] else [];
      first + Dispatch(keys, order[1..], deltaTime)
  }

  /** A direction is dispatched exactly when it is checked and its key is
      pressed. */
  lemma {:induction false} DispatchMembers(keys: Keys, order: seq<Direction>, deltaTime: real, d: Direction)
    ensures CameraMove(d, deltaTime) in Dispatch(keys, order, deltaTime) <==> d in order && Pressed(keys, d)
    decreases |order|
  {
    if |order| > 0 {
      DispatchMembers(keys, order[1..], deltaTime, d);
      assert order == [order[0]] + order[1..];
    }
  }

  /** Every move comes before the moves of higher rank. */
  predicate InRankOrder(moves: seq<CameraMove>)
  {
    forall i, j :: 0 <= i < j < |moves| ==> Rank(moves[i].direction) < Rank(moves[j].direction)
  }

  /** Checked in increasing rank, the moves come out in increasing rank:
      no direction twice, none out of order. */
  lemma {:induction false} DispatchOrdered(keys: Keys, order: seq<Direction>, deltaTime: real)
    requires forall i, j :: 0 <= i < j < |order| ==> Rank(order[i]) < Rank(order[j])
    ensures InRankOrder(Dispatch(keys, order, deltaTime))
    decreases |order|
  {
    if |order| > 0 {
      var r := Dispatch(keys, order, deltaTime);
      var first := if Pressed(keys, order[0]) then [CameraMove(order[0], deltaTime)] else [];
      var rest := Dispatch(keys, order[1..], deltaTime);
      assert r == first + rest;
      DispatchOrdered(keys, order[1..], deltaTime);
      forall m | 0 <= m < |rest|
        ensures Rank(order[0]) < Rank(rest[m].direction)
      {
        var k :| 0 <= k < |order[1..]| && order[1..][k] == rest[m].direction;
        assert order[k + 1] == rest[m].direction;
      }
      if Pressed(keys, order[0]) {
        ConsInRankOrder(CameraMove(order[0], deltaTime), rest);
      }
    }
  }

  /** A move ranked below every move of an ordered run can go in front. */
  lemma ConsInRankOrder(head: CameraMove, rest: seq<CameraMove>)
    requires InRankOrder(rest)
    requires forall m :: 0 <= m < |rest| ==> Rank(head.direction) < Rank(rest[m].direction)
    ensures InRankOrder([head] + rest)
  {
    var r := [head] + rest;
    forall i, j | 0 <= i < j < |r|
      ensures Rank(r[i].direction) < Rank(r[j].direction)
    {
      assert r[j] == rest[j - 1];
      if i > 0 {
        assert r[i] == rest[i - 1];
      }
    }
  }

  /** The poll checks every movement key. */
  lemma PollOrderMembers(keys: Keys, deltaTime: real)
    ensures forall d :: CameraMove(d, deltaTime) in Dispatch(keys, PollOrder, deltaTime) <==> Pressed(keys, d)
  {
    forall d: Direction
      ensures CameraMove(d, deltaTime) in Dispatch(keys, PollOrder, deltaTime) <==> Pressed(keys, d)
    {
      DispatchMembers(keys, PollOrder, deltaTime, d);
      assert PollOrder[Rank(d)] == d;
    }
  }

  /** The projection mode after a poll: P pressed flips it. The source
      checks the key's level, not its press, so every poll that finds P held
      flips the mode again. */
  function Toggle(keys: Keys, orthographic: bool): bool
  {
    if keys.p then !orthographic else orthographic
  }

  /** One keyboard poll. Escape requests the window to close (a request
      that is never withdrawn); W, S, A and D each move the camera once in
      their own direction by the current frame time, checked in that order,
      and no other key moves it; P flips between perspective and
      orthographic projection on every poll that finds it pressed. */
  function ProcessKeyboardEvents(keys: Keys, closeRequested: bool, orthographic: bool, deltaTime: real): (r: KeyboardOutcome)
    ensures r.closeRequested <==> closeRequested || keys.escape
    ensures r.orthographic <==> (orthographic != keys.p)
    ensures forall i :: 0 <= i < |r.moves| ==> r.moves[i].deltaTime == deltaTime
    ensures forall d :: CameraMove(d, deltaTime) in r.moves <==> Pressed(keys, d)
    ensures InRankOrder(r.moves)
  {
    PollOrderMembers(keys, deltaTime);
    DispatchOrdered(keys, PollOrder, deltaTime);
    var moves := Dispatch(keys, PollOrder, deltaTime);
    KeyboardOutcome(closeRequested || keys.escape, moves, Toggle(keys, orthographic))
  }

  /** The number of polls in `polls` that find P pressed. */
  function PCount(polls: seq<Keys>): nat
  {
    if |polls| == 0 then 0 else PCount(polls[..|polls| - 1]) + (if polls[|polls| - 1].p then 1 else 0)
  }

  /** The projection mode after polling `polls` in order (each poll's mode
      is ProcessKeyboardEvents' `orthographic`, which is Toggle's). */
  function OrthographicAfter(orthographic: bool, polls: seq<Keys>): bool
  {
    if |polls| == 0 then orthographic
    else
      var before := OrthographicAfter(orthographic, polls[..|polls| - 1]);
      Toggle(polls[|polls| - 1], before)
  }

  /** The toggle is a parity: the mode has flipped exactly when an odd
      number of polls saw P. Holding P for two polls therefore restores the
      mode, and polls without P never change it. */
  lemma {:induction false} OrthographicParity(orthographic: bool, polls: seq<Keys>)
    ensures OrthographicAfter(orthographic, polls) <==> (orthographic != (PCount(polls) % 2 == 1))
    decreases |polls|
  {
    if |polls| > 0 {
      var previous := polls[..|polls| - 1];
      OrthographicParity(orthographic, previous);
      var n := PCount(previous);
      assert PCount(polls) == n + (if polls[|polls| - 1].p then 1 else 0);
      assert (n + 1) % 2 == 1 <==> n % 2 != 1;
    }
  }

  // ---------------------------------------------------------------------
  // Projection

  /** The projection parameters for the current mode: an orthographic box
      OrthoSize wide on each side of the axis with the window's aspect
      ratio, or a perspective frustum with the camera's zoom as field of
      view; both clip at NearPlane and FarPlane. */
  function SelectProjection(orthographic: bool, zoom: real): (r: Projection)
    ensures r.Orthographic? <==> orthographic
    ensures r.near == NearPlane && r.far == FarPlane
    ensures r.Orthographic? ==>
              && r.left == -r.right && r.bottom == -r.top
              && r.right == OrthoSize && r.top == 8.0
              && (r.right - r.left) * WindowHeight as real == (r.top - r.bottom) * WindowWidth as real
    ensures r.Perspective? ==>
              && r.fovDegrees == zoom
              && r.aspect * WindowHeight as real == WindowWidth as real
  {
    if orthographic then
      var ratio := WindowHeight as real / WindowWidth as real;
      Orthographic(-OrthoSize, OrthoSize, -OrthoSize * ratio, OrthoSize * ratio, NearPlane, FarPlane)
    else
      Perspective(zoom, WindowWidth as real / WindowHeight as real, NearPlane, FarPlane)
  }

  // ---------------------------------------------------------------------
  // Per-frame view preparation

  datatype ViewState = ViewState(mouse: Mouse, deltaTime: real, lastFrame: real, orthographic: bool, closeRequested: bool)

  /** The state before the first frame: perspective, no frame time yet. */
  const InitialView: ViewState := ViewState(InitialMouse, 0.0, 0.0, false, false)

  /** What the camera reports: its position, orientation and zoom. */
  datatype CameraPose = CameraPose(position: Vec3, front: Vec3, up: Vec3, zoom: real)

  /** The pose the view manager gives the camera when it is created. */
  const InitialCamera: CameraPose := CameraPose(Vec3(0.0, 5.0, 12.0), Vec3(0.0, -0.5, -2.0), Vec3(0.0, 1.0, 0.0), 80.0)

  /** The frame clock: the time since the previous frame becomes the frame
      time, and now becomes the previous frame. */
  function Tick(st: ViewState, now: real): (r: ViewState)
    ensures r.lastFrame == now
    ensures r.lastFrame - st.lastFrame == r.deltaTime
    ensures r.mouse == st.mouse && r.orthographic == st.orthographic && r.closeRequested == st.closeRequested
  {
    st.(deltaTime := now - st.lastFrame, lastFrame := now)
  }

  /** The frame times of a run of frames, summed, with the clock after
      them. */
  datatype Elapsed = Elapsed(state: ViewState, total: real)

  function TickAll(st: ViewState, times: seq<real>): (r: Elapsed)
  {
    if |times| == 0 then Elapsed(st, 0.0)
    else
      var before := TickAll(st, times[..|times| - 1]);
      var after := Tick(before.state, times[|times| - 1]);
      Elapsed(after, before.total + after.deltaTime)
  }

  /** No time is lost or counted twice: the frame times of a run add up
      to the time from the frame before the run to its last frame. */
  lemma {:induction false} FrameTimesTelescope(st: ViewState, times: seq<real>)
    requires |times| > 0
    ensures TickAll(st, times).total == times[|times| - 1] - st.lastFrame
    ensures TickAll(st, times).state.lastFrame == times[|times| - 1]
    decreases |times|
  {
    if |times| > 1 {
      FrameTimesTelescope(st, times[..|times| - 1]);
    }
  }

  /** One frame's view preparation and what it produced: the new state,
      the moves handed to the camera, the projection parameters and the
      shader after the uploads. */
  datatype ViewFrame = ViewFrame(state: ViewState, moves: seq<CameraMove>, projection: Projection, shader: Shader)

  /** Tick the clock, poll the keyboard with the new frame time, then
      build the projection for the mode the poll left and, when a shader
      manager is attached, upload the view matrix, the projection and the
      camera position. `camera` is the camera's pose after the poll's
      moves. */
  function PrepareSceneView(st: ViewState, now: real, keys: Keys, camera: CameraPose, sh: Shader): (r: ViewFrame)
    ensures r.state.deltaTime == now - st.lastFrame && r.state.lastFrame == now
    ensures r.state.mouse == st.mouse
    ensures r.state.orthographic <==> (st.orthographic != keys.p)
    ensures r.state.closeRequested <==> st.closeRequested || keys.escape
    ensures forall d :: CameraMove(d, r.state.deltaTime) in r.moves <==> Pressed(keys, d)
    ensures forall i :: 0 <= i < |r.moves| ==> r.moves[i].deltaTime == r.state.deltaTime
    ensures InRankOrder(r.moves)
    ensures r.projection.Orthographic? <==> r.state.orthographic
    ensures r.projection.Perspective? ==> r.projection.fovDegrees == camera.zoom
    ensures r.projection == SelectProjection(r.state.orthographic, camera.zoom)
    ensures sh.NoShader? ==> r.shader == NoShader
    ensures sh.Bound? ==>
              && r.shader.Bound?
              && Overwrites(sh.uniforms, r.shader.uniforms, {ViewName, ProjectionName, ViewPositionName})
              && r.shader.uniforms[ViewName] == ViewMatrix(camera.position, camera.front, camera.up)
              && r.shader.uniforms[ProjectionName] == ProjectionMatrix(r.projection)
              && r.shader.uniforms[ViewPositionName] == Vec3Value(camera.position)
  {
    var ticked := Tick(st, now);
    var polled := ProcessKeyboardEvents(keys, ticked.closeRequested, ticked.orthographic, ticked.deltaTime);
    var state := ticked.(orthographic := polled.orthographic, closeRequested := polled.closeRequested);
    var projection := SelectProjection(state.orthographic, camera.zoom);
    var shader :=
      if sh.Bound? then
        var s1 := Upload(sh, ViewName, ViewMatrix(camera.position, camera.front, camera.up));
        var s2 := Upload(s1, ProjectionName, ProjectionMatrix(projection));
        var s3 := Upload(s2, ViewPositionName, Vec3Value(camera.position));
        OverwritesTrans(sh.uniforms, s1.uniforms, s2.uniforms, {ViewName}, {ProjectionName});
        OverwritesTrans(sh.uniforms, s2.uniforms, s3.uniforms, {ViewName, ProjectionName}, {ViewPositionName});
        s3
      else NoShader;
    ViewFrame(state, polled.moves, projection, shader)
  }

  /** The first frame after start-up: its frame time is the whole time
      since the clock started, the projection is perspective with the
      start-up zoom of 80 degrees unless P is already held (a keyboard
      move turns or shifts the camera but never changes its zoom, and the
      view manager registers no scroll callback). When no
      movement key is held the poll moves nothing, so the camera keeps its
      start-up pose and the position uploaded is the start-up position. A
      first cursor callback from the start-up mouse state turns the camera
      by nothing. */
  lemma FirstFrame(now: real, keys: Keys, sh: Shader, x: real, y: real)
    ensures var r := PrepareSceneView(InitialView, now, keys, InitialCamera, sh);
            && r.state.deltaTime == now
            && (!keys.p ==> r.projection == Perspective(80.0, 1.25, NearPlane, FarPlane))
            && (!keys.w && !keys.s && !keys.a && !keys.d ==>
                  && r.moves == []
                  && (sh.Bound? ==> r.shader.uniforms[ViewPositionName] == Vec3Value(Vec3(0.0, 5.0, 12.0))))
    ensures var step := MousePositionCallback(InitialView.mouse, x, y);
            step.xOffset == 0.0 && step.yOffset == 0.0
  {
    var r := PrepareSceneView(InitialView, now, keys, InitialCamera, sh);
    if |r.moves| > 0 {
      // every move is some direction's move at this frame's time, and its key is held
      assert r.moves[0] == CameraMove(r.moves[0].direction, r.state.deltaTime);
      assert Pressed(keys, r.moves[0].direction);
    }
  }
}
