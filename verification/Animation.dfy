// The animation clock of a sprite (client-svelte/src/lib/client/game/animation.js).
module Animation {
  import opened Arithmetic

  datatype Kind = Cycle | PingPong

  datatype State = State(kind: Kind, frameDelay: int, frameCount: int, delay: int, frame: int, dir: int)

  /** One update: every `frameDelay` updates the frame moves on and, past either end,
      jumps to the other end or turns round and stays. */
  function Next(s: State): State {
    if s.delay - 1 != 0 then s.(delay := s.delay - 1)
    else
      var frame := s.frame + s.dir;
      var moved := s.(delay := s.frameDelay, frame := frame);
      if frame != -1 && frame != s.frameCount then moved
      else if s.kind.Cycle? then moved.(frame := frame - s.frameCount * s.dir)
      else moved.(dir := -s.dir, frame := frame - s.dir)
  }

  function After(s: State, n: nat): State {
    if n == 0 then s else Next(After(s, n - 1))
  }

  // What a new animation starts with; a changed one keeps its direction.
  function Begin(kind: Kind, frameDelay: int, frameCount: int, dir: int): State {
    State(kind, frameDelay, frameCount, frameDelay, 0, dir)
  }

  // ------------------------------------------------------ closed forms

  /** The wave 0, 1, ..., c - 1, c - 1, ..., 1, 0 and round again: the frame shown. */
  function Wave(c: int, j: int): (frame: int)
    requires c >= 1
    ensures 0 <= frame < c
  {
    if j % (2 * c) < c then j % (2 * c) else 2 * c - 1 - j % (2 * c)
  }

  function WaveDir(c: int, j: int): int
    requires c >= 1
  {
    if j % (2 * c) < c then 1 else -1
  }

  /** The frame after k moves: forwards from the first frame, or, when an animation
      is changed while it was going backwards, backwards from it. */
  function FrameAfter(kind: Kind, c: int, dir: int, k: nat): (frame: int)
    requires c >= 1 && (dir == 1 || dir == -1)
    ensures 0 <= frame < c
  {
    if kind.Cycle? then (dir * k) % c else Wave(c, if dir == 1 then k else k + 2 * c - 1)
  }

  function DirAfter(kind: Kind, c: int, dir: int, k: nat): int
    requires c >= 1 && (dir == 1 || dir == -1)
  {
    if kind.Cycle? then dir else WaveDir(c, if dir == 1 then k else k + 2 * c - 1)
  }

  function Move(kind: Kind, c: int, frame: int, dir: int): (int, int) {
    var f := frame + dir;
    if f != -1 && f != c then (f, dir) else if kind.Cycle? then (f - c * dir, dir) else (frame, -dir)
  }

  lemma CycleMoves(c: int, dir: int, k: nat)
    requires c >= 1 && (dir == 1 || dir == -1)
    ensures Move(Cycle, c, (dir * k) % c, dir) == ((dir * (k + 1)) % c, dir)
  {
    var q, r := (dir * k) / c, (dir * k) % c;
    var f := r + dir;
    if f == -1 {
      QuotientIs(dir * (k + 1), c, q - 1, c - 1);
    } else if f == c {
      QuotientIs(dir * (k + 1), c, q + 1, 0);
    } else {
      QuotientIs(dir * (k + 1), c, q, f);
    }
  }

  lemma WaveMoves(c: int, j: nat)
    requires c >= 1
    ensures Move(PingPong, c, Wave(c, j), WaveDir(c, j)) == (Wave(c, j + 1), WaveDir(c, j + 1))
  {
    CountOn(j, 2 * c);
  }

  lemma Starts(kind: Kind, c: int, dir: int)
    requires c >= 1 && (dir == 1 || dir == -1)
    ensures FrameAfter(kind, c, dir, 0) == 0 && DirAfter(kind, c, dir, 0) == dir
  {
    if kind.PingPong? {
      QuotientIs(if dir == 1 then 0 else 2 * c - 1, 2 * c, 0, if dir == 1 then 0 else 2 * c - 1);
    }
  }

  lemma ClosedMoves(kind: Kind, c: int, dir: int, k: nat)
    requires c >= 1 && (dir == 1 || dir == -1)
    ensures Move(kind, c, FrameAfter(kind, c, dir, k), DirAfter(kind, c, dir, k))
            == (FrameAfter(kind, c, dir, k + 1), DirAfter(kind, c, dir, k + 1))
  {
    hide Wave, WaveDir, Move;
    if kind.Cycle? {
      CycleMoves(c, dir, k);
    } else {
      WaveMoves(c, if dir == 1 then k else k + 2 * c - 1);
    }
  }

  /** After n updates the frame is the closed form at n / frameDelay moves. */
  lemma {:induction false} ClosedForm(kind: Kind, frameDelay: int, frameCount: int, dir: int, n: nat)
    requires frameDelay >= 1 && frameCount >= 1 && (dir == 1 || dir == -1)
    ensures var s, k := After(Begin(kind, frameDelay, frameCount, dir), n), n / frameDelay;
      && s.frame == FrameAfter(kind, frameCount, dir, k) && s.dir == DirAfter(kind, frameCount, dir, k)
      && s.delay == frameDelay - n % frameDelay
      && s.kind == kind && s.frameDelay == frameDelay && s.frameCount == frameCount
  {
    hide Wave, WaveDir, Move, FrameAfter, DirAfter, Next;
    if n == 0 {
      Starts(kind, frameCount, dir);
    } else {
      var k := (n - 1) / frameDelay;
      ClosedForm(kind, frameDelay, frameCount, dir, n - 1);
      CountOn(n - 1, frameDelay);
      NextMoves(After(Begin(kind, frameDelay, frameCount, dir), n - 1));
      ClosedMoves(kind, frameCount, dir, k);
    }
  }

  lemma NextMoves(s: State)
    ensures var t, m := Next(s), Move(s.kind, s.frameCount, s.frame, s.dir);
      if s.delay == 1 then t == s.(delay := s.frameDelay, frame := m.0, dir := m.1)
      else t == s.(delay := s.delay - 1)
  {
  }

  /** The frame shown is always one of the animation's own. */
  lemma FrameInRange(kind: Kind, frameDelay: int, frameCount: int, dir: int, n: nat)
    requires frameDelay >= 1 && frameCount >= 1 && (dir == 1 || dir == -1)
    ensures 0 <= After(Begin(kind, frameDelay, frameCount, dir), n).frame < frameCount
  {
    ClosedForm(kind, frameDelay, frameCount, dir, n);
  }

  /** A delay below one is never counted down to zero: the animation stands still. */
  lemma {:induction false} Frozen(kind: Kind, frameDelay: int, frameCount: int, dir: int, n: nat)
    requires frameDelay < 1
    ensures var s := After(Begin(kind, frameDelay, frameCount, dir), n);
      s.frame == 0 && s.dir == dir && s.delay == frameDelay - n
  {
    if n > 0 {
      Frozen(kind, frameDelay, frameCount, dir, n - 1);
    }
  }

  // ----------------------------------------------- a changed animation

  /** After a change that kept direction `dir`, every frame is that of a new animation. */
  ghost predicate ShowsAsNew(kind: Kind, frameDelay: int, frameCount: int, dir: int) {
    forall n: nat :: After(Begin(kind, frameDelay, frameCount, dir), n).frame == After(Begin(kind, frameDelay, frameCount, 1), n).frame
  }

  /** A changed animation plays as a new one does if and only if it was going forwards,
      never moves, has one frame, or is a cycle of two. */
  lemma ShowsAsNewIff(kind: Kind, frameDelay: int, frameCount: int, dir: int)
    requires frameCount >= 1 && (dir == 1 || dir == -1)
    ensures ShowsAsNew(kind, frameDelay, frameCount, dir)
            <==> dir == 1 || frameDelay < 1 || frameCount == 1 || (kind.Cycle? && frameCount == 2)
  {
    if dir == 1 || frameDelay < 1 || frameCount == 1 || (kind.Cycle? && frameCount == 2) {
      forall n: nat
        ensures After(Begin(kind, frameDelay, frameCount, dir), n).frame == After(Begin(kind, frameDelay, frameCount, 1), n).frame
      {
        SameFrame(kind, frameDelay, frameCount, dir, n);
      }
    } else {
      FirstMoveDiffers(kind, frameDelay, frameCount);
    }
  }

  lemma SameFrame(kind: Kind, frameDelay: int, frameCount: int, dir: int, n: nat)
    requires frameCount >= 1 && (dir == 1 || dir == -1)
    requires dir == 1 || frameDelay < 1 || frameCount == 1 || (kind.Cycle? && frameCount == 2)
    ensures After(Begin(kind, frameDelay, frameCount, dir), n).frame == After(Begin(kind, frameDelay, frameCount, 1), n).frame
  {
    hide After, Wave;
    if frameDelay < 1 {
      Frozen(kind, frameDelay, frameCount, dir, n);
      Frozen(kind, frameDelay, frameCount, 1, n);
    } else {
      ClosedForm(kind, frameDelay, frameCount, dir, n);
      ClosedForm(kind, frameDelay, frameCount, 1, n);
    }
  }

  /** The witness: the first move goes to the last frame, or stays, instead of going
      to the second frame. */
  lemma FirstMoveDiffers(kind: Kind, frameDelay: int, frameCount: int)
    requires frameDelay >= 1 && frameCount >= 2 && (kind.Cycle? ==> frameCount >= 3)
    ensures After(Begin(kind, frameDelay, frameCount, 1), frameDelay).frame == 1
    ensures After(Begin(kind, frameDelay, frameCount, -1), frameDelay).frame
            == if kind.Cycle? then frameCount - 1 else 0
  {
    hide After;
    ClosedForm(kind, frameDelay, frameCount, 1, frameDelay);
    ClosedForm(kind, frameDelay, frameCount, -1, frameDelay);
    QuotientIs(frameDelay, frameDelay, 1, 0);
    if kind.Cycle? {
      QuotientIs(1, frameCount, 0, 1);
      QuotientIs(-1, frameCount, -1, frameCount - 1);
    } else {
      QuotientIs(1, 2 * frameCount, 0, 1);
      QuotientIs(2 * frameCount, 2 * frameCount, 1, 0);
    }
  }

  /** An animation does go backwards: a ping-pong of two frames after two moves. */
  lemma GoesBackwards()
    ensures After(Begin(PingPong, 1, 2, 1), 2).dir == -1
  {
    assert After(Begin(PingPong, 1, 2, 1), 1) == Next(Begin(PingPong, 1, 2, 1));
  }

  // ---------------------------------------------------------- the object

  class Animation {
    var kind: Kind
    var frameDelay: int
    var frameCount: int
    var baseFrame: int
    var currentFrameDelay: int
    var currentFrame: int
    var currentDir: int

    ghost function View(): State
      reads this
    {
      State(kind, frameDelay, frameCount, currentFrameDelay, currentFrame, currentDir)
    }

    constructor (frameDelay: int, frameCount: int, kind: Kind, baseFrame: int)
      ensures View() == Begin(kind, frameDelay, frameCount, 1) && this.baseFrame == baseFrame
    {
      this.kind, this.frameDelay, this.frameCount, this.baseFrame := kind, frameDelay, frameCount, baseFrame;
      currentFrameDelay, currentFrame, currentDir := frameDelay, 0, 1;
    }

    /** Another animation from its first frame; the direction stays. */
    method Change(frameDelay: int, frameCount: int, kind: Kind, baseFrame: int)
      modifies this
      ensures View() == Begin(kind, frameDelay, frameCount, old(currentDir)) && this.baseFrame == baseFrame
    {
      currentFrame := 0;
      this.kind, this.frameDelay, this.frameCount, this.baseFrame := kind, frameDelay, frameCount, baseFrame;
      currentFrameDelay := frameDelay;
    }

    method Update()
      modifies this
      ensures View() == Next(old(View())) && baseFrame == old(baseFrame)
    {
      currentFrameDelay := currentFrameDelay - 1;
      if currentFrameDelay == 0 {
        currentFrameDelay := frameDelay;
        currentFrame := currentFrame + currentDir;
        if currentFrame == -1 || currentFrame == frameCount {
          if kind.Cycle? {
            currentFrame := currentFrame - frameCount * currentDir;
          } else {
            currentDir := currentDir * -1;
            currentFrame := currentFrame + currentDir;
          }
        }
      }
    }

    function Frame(): int
      reads this
    {
      currentFrame + baseFrame
    }

    /** After n updates of a new animation, or of one changed while it went in direction
        `dir`: the frame drawn is one of its own frames, a cycle's by counting on from
        the first, a ping-pong's by counting up and down and showing both ends twice. */
    lemma FrameDrawn(dir: int, n: nat)
      requires frameDelay >= 1 && frameCount >= 1 && (dir == 1 || dir == -1)
      requires View() == After(Begin(kind, frameDelay, frameCount, dir), n)
      ensures baseFrame <= Frame() < baseFrame + frameCount
      ensures kind.Cycle? ==> Frame() == baseFrame + (dir * (n / frameDelay)) % frameCount
      ensures kind.PingPong? ==>
                var j := (n / frameDelay + if dir == 1 then 0 else 2 * frameCount - 1) % (2 * frameCount);
                Frame() == baseFrame + if j < frameCount then j else 2 * frameCount - 1 - j
    {
      ClosedForm(kind, frameDelay, frameCount, dir, n);
    }
  }
}
