/**
  `CubeFBO`: a mip chain of cube-map render targets. Every level has six framebuffers, one
  per face; an optional color cube texture and a depth cube texture span the whole chain,
  face `i` of level `l` of each texture being bound to framebuffer `i` of level `l`.
*/
module CubeFramebuffer {
  import opened Driver
  import opened MipChain

  const FACES: nat := 6

  /** One level of the chain: its face width and the framebuffer of each face. */
  datatype CubeLevel = CubeLevel(width: nat, fbos: seq<nat>)

  /** The framebuffer handles held by a sequence of levels. */
  ghost function CubeFboHandles(ms: seq<CubeLevel>): set<Handle>
  {
    set l, f | 0 <= l < |ms| && 0 <= f < |ms[l].fbos| && ms[l].fbos[f] != 0 :: Handle(Framebuffer, ms[l].fbos[f])
  }

  /** Appending a level adds exactly the handles of its faces. */
  lemma CubeFboHandlesSnoc(ms: seq<CubeLevel>, m: CubeLevel)
    ensures CubeFboHandles(ms + [m]) == CubeFboHandles(ms) + HandlesOf(Framebuffer, m.fbos)
  {
    var ms' := ms + [m];
    forall x | x in CubeFboHandles(ms')
      ensures x in CubeFboHandles(ms) + HandlesOf(Framebuffer, m.fbos)
    {
      var l, f :| 0 <= l < |ms'| && 0 <= f < |ms'[l].fbos| && ms'[l].fbos[f] != 0 && x == Handle(Framebuffer, ms'[l].fbos[f]);
      if l < |ms| {
        assert ms'[l] == ms[l];
      } else {
        assert ms'[l] == m;
      }
    }
    forall x | x in CubeFboHandles(ms) + HandlesOf(Framebuffer, m.fbos)
      ensures x in CubeFboHandles(ms')
    {
      if x in CubeFboHandles(ms) {
        var l, f :| 0 <= l < |ms| && 0 <= f < |ms[l].fbos| && ms[l].fbos[f] != 0 && x == Handle(Framebuffer, ms[l].fbos[f]);
        assert ms'[l] == ms[l];
      } else {
        var f :| 0 <= f < |m.fbos| && m.fbos[f] != 0 && x == Handle(Framebuffer, m.fbos[f]);
        assert ms'[|ms|] == m;
      }
    }
  }

  /** Every framebuffer handle of `ms` was handed out at or after `lo`. */
  lemma CubeFboHandlesAbove(ms: seq<CubeLevel>, lo: nat)
    requires forall l, f :: 0 <= l < |ms| && 0 <= f < |ms[l].fbos| ==> lo <= ms[l].fbos[f]
    ensures forall x :: x in CubeFboHandles(ms) ==> lo <= x.id
  {
  }

  /**
    The chain built so far: level `l` is `w >> l` wide and has six framebuffers, handed out
    in `[lo, hi)`, increasing within a level and from one level to the next.
  */
  ghost predicate CubeChain(ms: seq<CubeLevel>, w: nat, lo: nat, hi: nat)
  {
    && (forall l {:trigger ms[l]} :: 0 <= l < |ms| ==> ms[l].width == Shr(w, l) && |ms[l].fbos| == FACES && Increasing(ms[l].fbos))
    && (forall l, f :: 0 <= l < |ms| && 0 <= f < |ms[l].fbos| ==> lo <= ms[l].fbos[f] < hi)
    && LevelsOrdered(ms)
  }

  /** Every framebuffer of a level is below every framebuffer of a later level. */
  ghost predicate LevelsOrdered(ms: seq<CubeLevel>)
  {
    forall l, k, f, g :: 0 <= l < k < |ms| && 0 <= f < |ms[l].fbos| && 0 <= g < |ms[k].fbos| ==> ms[l].fbos[f] < ms[k].fbos[g]
  }

  lemma CubeChainSnoc(ms: seq<CubeLevel>, w: nat, lo: nat, mid: nat, hi: nat, fbos: seq<nat>)
    requires CubeChain(ms, w, lo, mid) && lo <= mid
    requires |fbos| == FACES && Increasing(fbos) && forall f :: 0 <= f < |fbos| ==> mid <= fbos[f] < hi
    ensures CubeChain(ms + [CubeLevel(Shr(w, |ms|), fbos)], w, lo, hi)
  {
    var ms' := ms + [CubeLevel(Shr(w, |ms|), fbos)];
    assert forall l :: 0 <= l < |ms| ==> ms'[l] == ms[l];
    assert ms'[|ms|].fbos == fbos;
    assert mid <= fbos[0] < hi;
    assert forall l, f :: 0 <= l < |ms'| && 0 <= f < |ms'[l].fbos| ==> lo <= ms'[l].fbos[f] < hi by {
      forall l, f | 0 <= l < |ms'| && 0 <= f < |ms'[l].fbos|
        ensures lo <= ms'[l].fbos[f] < hi
      {
        if l < |ms| {
          assert ms'[l] == ms[l];
          assert lo <= ms[l].fbos[f] < mid;
        }
      }
    }
    assert LevelsOrdered(ms') by {
      forall l, k, f, g | 0 <= l < k < |ms'| && 0 <= f < |ms'[l].fbos| && 0 <= g < |ms'[k].fbos|
        ensures ms'[l].fbos[f] < ms'[k].fbos[g]
      {
        assert ms'[l] == ms[l];
        if k < |ms| {
          assert ms'[k] == ms[k];
        }
      }
    }
  }

  /** The framebuffer of face `i` of every level `l` has face `i`, level `l` of `texture` bound at `point`. */
  ghost predicate CubeAttached(ms: seq<CubeLevel>, attachments: map<(nat, nat), Attachment>, point: nat, texture: nat)
  {
    forall l, i :: 0 <= l < |ms| && 0 <= i < |ms[l].fbos| ==>
      (ms[l].fbos[i], point) in attachments
      && attachments[(ms[l].fbos[i], point)] == Attachment(GL_TEXTURE_CUBE_MAP_POSITIVE_X + i, texture, l)
  }

  /** `texture` is a cube texture spanning the chain and bound at `point` of every face of every level. */
  ghost predicate CubeTargetReady(ms: seq<CubeLevel>, texParams: map<nat, TexParams>, attachments: map<(nat, nat), Attachment>,
                                  point: nat, texture: nat, minFilter: nat)
  {
    && texture != 0
    && texture in texParams && texParams[texture] == TexParams(minFilter, |ms| - 1)
    && CubeAttached(ms, attachments, point, texture)
  }

  /** Every framebuffer of the chain draws to `buffers`. */
  ghost predicate CubeDrawsTo(ms: seq<CubeLevel>, drawBuffers: map<nat, seq<nat>>, buffers: seq<nat>)
  {
    forall l, i :: 0 <= l < |ms| && 0 <= i < |ms[l].fbos| ==> ms[l].fbos[i] in drawBuffers && drawBuffers[ms[l].fbos[i]] == buffers
  }

  /** Every framebuffer of the chain is complete. */
  ghost predicate AllComplete(ms: seq<CubeLevel>, complete: nat -> bool)
  {
    forall l, i :: 0 <= l < |ms| && 0 <= i < |ms[l].fbos| ==> complete(ms[l].fbos[i])
  }

  /**
    Face `i` of level `l` is the first incomplete framebuffer in the order the chain is
    checked: level by level, face by face.
  */
  ghost predicate FirstIncomplete(ms: seq<CubeLevel>, complete: nat -> bool, l: int, i: int)
  {
    && 0 <= l < |ms| && 0 <= i < |ms[l].fbos|
    && !complete(ms[l].fbos[i])
    && AllComplete(ms[..l], complete)
    && (forall j :: 0 <= j < i ==> complete(ms[l].fbos[j]))
  }

  /** The last framebuffer of the chain, which the attach loops leave bound. */
  function LastFbo(ms: seq<CubeLevel>): nat
    requires |ms| > 0 && |ms[|ms| - 1].fbos| == FACES
  {
    ms[|ms| - 1].fbos[FACES - 1]
  }

  class CubeFBO {
    var mips: seq<CubeLevel>
    var color: nat
    var depth: nat

    /** The handles this object must release: its two textures and every per-face framebuffer. */
    ghost function Owned(): set<Handle>
      reads this
    {
      (if color != 0 then {Handle(Texture, color)} else {})
        + (if depth != 0 then {Handle(Texture, depth)} else {})
        + CubeFboHandles(mips)
    }

    ghost predicate Valid(gl: Gl)
      reads this, gl
    {
      gl.Valid() && Owned() <= gl.live
    }

    constructor ()
      ensures mips == [] && color == 0 && depth == 0 && Owned() == {}
    {
      mips := [];
      color := 0;
      depth := 0;
    }

    /**
      The framebuffers of one level: each non-zero one is deleted. (The source also zeroes
      each entry, but the level is dropped right after, so the zeroing is not kept here.)
    */
    static method ReleaseFaces(gl: Gl, fbos: seq<nat>)
      requires gl.Valid()
      modifies gl`live
      ensures gl.Valid()
      ensures gl.live == old(gl.live) - HandlesOf(Framebuffer, fbos)
    {
      for f := 0 to |fbos|
        invariant gl.Valid()
        invariant gl.live == old(gl.live) - HandlesOf(Framebuffer, fbos[..f])
      {
        HandlesOfStep(Framebuffer, fbos, f);
        if fbos[f] != 0 {
          gl.Delete(Framebuffer, fbos[f]);
        }
      }
      assert fbos[..|fbos|] == fbos;
    }

    /** `cleanup`: deletes the color and depth textures, then every per-face framebuffer, and empties the chain. */
    method Cleanup(gl: Gl)
      requires Valid(gl)
      modifies this`color, this`depth, this`mips, gl`live
      ensures Valid(gl)
      ensures gl.live == old(gl.live) - old(Owned())
      ensures Owned() == {} && mips == [] && color == 0 && depth == 0
    {
      if color != 0 {
        gl.Delete(Texture, color);
        color := 0;
      }
      if depth != 0 {
        gl.Delete(Texture, depth);
        depth := 0;
      }
      ghost var afterTextures := gl.live;
      var levels := mips;
      for l := 0 to |levels|
        modifies gl`live
        invariant gl.Valid()
        invariant gl.live == afterTextures - CubeFboHandles(levels[..l])
      {
        ReleaseFaces(gl, levels[l].fbos);
        assert levels[..l + 1] == levels[..l] + [levels[l]];
        CubeFboHandlesSnoc(levels[..l], levels[l]);
      }
      assert levels[..|levels|] == levels;
      mips := [];
    }

    /** `_mips.push_back({w, {}})` followed by `glGenFramebuffers(6, ...)` into the new level. */
    method PushLevel(gl: Gl, w: nat) returns (fbos: seq<nat>)
      requires gl.Valid()
      modifies this`mips, gl`live, gl`next
      ensures gl.Valid() && old(gl.next) <= gl.next
      ensures |fbos| == FACES && Increasing(fbos) && forall f :: 0 <= f < FACES ==> 0 < fbos[f] && old(gl.next) <= fbos[f] < gl.next
      ensures mips == old(mips) + [CubeLevel(w, fbos)]
      ensures gl.live == old(gl.live) + HandlesOf(Framebuffer, fbos)
    {
      fbos := gl.GenN(Framebuffer, FACES);
      mips := mips + [CubeLevel(w, fbos)];
    }

    /** The `while` loop that builds the chain: six fresh framebuffers per level, each level half as wide. */
    method BuildMips(gl: Gl, w: nat, levels: nat)
      requires gl.Valid() && mips == [] && w >= 1
      modifies this`mips, gl`live, gl`next
      ensures gl.Valid() && old(gl.next) <= gl.next
      ensures |mips| == CubeMipCount(w, levels)
      ensures CubeChain(mips, w, old(gl.next), gl.next)
      ensures gl.live == old(gl.live) + CubeFboHandles(mips)
    {
      var cw := w;
      while cw > 0 && (levels == 0 || |mips| < levels)
        invariant gl.Valid() && old(gl.next) <= gl.next
        invariant cw == Shr(w, |mips|)
        invariant |mips| <= CubeMipCount(w, levels)
        invariant CubeChain(mips, w, old(gl.next), gl.next)
        invariant gl.live == old(gl.live) + CubeFboHandles(mips)
        decreases CubeMipCount(w, levels) - |mips|
      {
        CubeMipLoopGuard(w, levels, |mips|);
        ghost var before := mips;
        ghost var nextBefore := gl.next;
        var fbos := PushLevel(gl, cw);
        CubeChainSnoc(before, w, old(gl.next), nextBefore, gl.next, fbos);
        CubeFboHandlesSnoc(before, CubeLevel(cw, fbos));
        cw := cw / 2;
      }
      CubeMipLoopGuard(w, levels, |mips|);
    }

    /** The six faces of level `l`: face `i` of `texture` bound at `point` of framebuffer `i`. */
    method AttachLevel(gl: Gl, l: nat, point: nat, texture: nat, ghost lo: nat)
      requires l < |mips| && |mips[l].fbos| == FACES && Increasing(mips[l].fbos)
      requires forall i :: 0 <= i < FACES ==> lo <= mips[l].fbos[i]
      modifies gl`attachments, gl`boundFramebuffer
      ensures forall i :: 0 <= i < FACES ==>
        (mips[l].fbos[i], point) in gl.attachments
        && gl.attachments[(mips[l].fbos[i], point)] == Attachment(GL_TEXTURE_CUBE_MAP_POSITIVE_X + i, texture, l)
      ensures forall k :: k in old(gl.attachments) && (k.1 != point || k.0 !in mips[l].fbos) ==>
        k in gl.attachments && gl.attachments[k] == old(gl.attachments)[k]
      ensures AttachmentsKeptBelow(old(gl.attachments), gl.attachments, lo)
      ensures gl.boundFramebuffer == mips[l].fbos[FACES - 1]
    {
      var fbos := mips[l].fbos;
      for i := 0 to FACES
        invariant forall j :: 0 <= j < i ==>
          (fbos[j], point) in gl.attachments && gl.attachments[(fbos[j], point)] == Attachment(GL_TEXTURE_CUBE_MAP_POSITIVE_X + j, texture, l)
        invariant forall k :: k in old(gl.attachments) && (k.1 != point || k.0 !in fbos) ==>
          k in gl.attachments && gl.attachments[k] == old(gl.attachments)[k]
        invariant AttachmentsKeptBelow(old(gl.attachments), gl.attachments, lo)
        invariant i > 0 ==> gl.boundFramebuffer == fbos[i - 1]
      {
        gl.BindFramebuffer(fbos[i]);
        // For the depth texture, the per-face `glTexImage2D` storage upload is not modelled.
        gl.FramebufferTexture(point, GL_TEXTURE_CUBE_MAP_POSITIVE_X + i, texture, l);
      }
    }

    /** Binds `texture` at `point` of every face of every level, leaving the other points alone. */
    method AttachEveryLevel(gl: Gl, point: nat, texture: nat, ghost w: nat, ghost lo: nat, ghost hi: nat)
      requires CubeChain(mips, w, lo, hi) && |mips| > 0
      modifies gl`attachments, gl`boundFramebuffer
      ensures CubeAttached(mips, gl.attachments, point, texture)
      ensures SameAttachmentsExcept(old(gl.attachments), gl.attachments, point)
      ensures AttachmentsKeptBelow(old(gl.attachments), gl.attachments, lo)
      ensures gl.boundFramebuffer == LastFbo(mips)
    {
      for l := 0 to |mips|
        invariant CubeAttached(mips[..l], gl.attachments, point, texture)
        invariant SameAttachmentsExcept(old(gl.attachments), gl.attachments, point)
        invariant AttachmentsKeptBelow(old(gl.attachments), gl.attachments, lo)
        invariant l > 0 ==> gl.boundFramebuffer == mips[l - 1].fbos[FACES - 1]
      {
        ghost var before := gl.attachments;
        AttachLevel(gl, l, point, texture, lo);
        AttachmentsKeptBelowTrans(old(gl.attachments), before, gl.attachments, lo);
        forall m, i | 0 <= m < l && 0 <= i < |mips[m].fbos|
          ensures (mips[m].fbos[i], point) in gl.attachments
            && gl.attachments[(mips[m].fbos[i], point)] == Attachment(GL_TEXTURE_CUBE_MAP_POSITIVE_X + i, texture, m)
        {
          assert mips[..l][m] == mips[m];
          assert mips[m].fbos[i] !in mips[l].fbos by {
            forall g | 0 <= g < |mips[l].fbos| ensures mips[m].fbos[i] < mips[l].fbos[g] {
            }
          }
        }
        assert forall m :: 0 <= m <= l ==> mips[..l + 1][m] == mips[m];
      }
      assert mips[..|mips|] == mips;
    }

    /** `glDrawBuffers(1, {GL_NONE})` on every framebuffer of level `l`. */
    method DrawNothingAtLevel(gl: Gl, l: nat, ghost lo: nat)
      requires l < |mips| && |mips[l].fbos| == FACES
      requires forall i :: 0 <= i < FACES ==> lo <= mips[l].fbos[i]
      modifies gl`drawBuffers, gl`boundFramebuffer
      ensures forall i :: 0 <= i < FACES ==> mips[l].fbos[i] in gl.drawBuffers && gl.drawBuffers[mips[l].fbos[i]] == [GL_NONE]
      ensures forall fbo :: fbo in old(gl.drawBuffers) && fbo !in mips[l].fbos ==>
        fbo in gl.drawBuffers && gl.drawBuffers[fbo] == old(gl.drawBuffers)[fbo]
      ensures KeptBelow(old(gl.drawBuffers), gl.drawBuffers, lo)
      ensures gl.boundFramebuffer == mips[l].fbos[FACES - 1]
    {
      var fbos := mips[l].fbos;
      for i := 0 to FACES
        invariant forall j :: 0 <= j < i ==> fbos[j] in gl.drawBuffers && gl.drawBuffers[fbos[j]] == [GL_NONE]
        invariant forall fbo :: fbo in old(gl.drawBuffers) && fbo !in fbos ==>
          fbo in gl.drawBuffers && gl.drawBuffers[fbo] == old(gl.drawBuffers)[fbo]
        invariant KeptBelow(old(gl.drawBuffers), gl.drawBuffers, lo)
        invariant i > 0 ==> gl.boundFramebuffer == fbos[i - 1]
      {
        gl.BindFramebuffer(fbos[i]);
        gl.DrawBuffers([GL_NONE]);
      }
    }

    /** The `GL_NONE` branch of `allocate`: no color texture, and every framebuffer draws to nothing. */
    method DrawNothing(gl: Gl, ghost w: nat, ghost lo: nat, ghost hi: nat)
      requires CubeChain(mips, w, lo, hi) && |mips| > 0
      modifies gl`drawBuffers, gl`boundFramebuffer
      ensures CubeDrawsTo(mips, gl.drawBuffers, [GL_NONE])
      ensures KeptBelow(old(gl.drawBuffers), gl.drawBuffers, lo)
      ensures gl.boundFramebuffer == LastFbo(mips)
    {
      for l := 0 to |mips|
        invariant CubeDrawsTo(mips[..l], gl.drawBuffers, [GL_NONE])
        invariant KeptBelow(old(gl.drawBuffers), gl.drawBuffers, lo)
        invariant l > 0 ==> gl.boundFramebuffer == mips[l - 1].fbos[FACES - 1]
      {
        ghost var before := gl.drawBuffers;
        DrawNothingAtLevel(gl, l, lo);
        KeptBelowTrans(old(gl.drawBuffers), before, gl.drawBuffers, lo, lo, lo);
        forall m, i | 0 <= m < l && 0 <= i < |mips[m].fbos|
          ensures mips[m].fbos[i] in gl.drawBuffers && gl.drawBuffers[mips[m].fbos[i]] == [GL_NONE]
        {
          assert mips[..l][m] == mips[m];
          assert mips[m].fbos[i] !in mips[l].fbos by {
            forall g | 0 <= g < |mips[l].fbos| ensures mips[m].fbos[i] < mips[l].fbos[g] {
            }
          }
        }
        assert forall m :: 0 <= m <= l ==> mips[..l + 1][m] == mips[m];
      }
      assert mips[..|mips|] == mips;
    }

    /** A fresh cube texture spanning the chain, bound at `point` of every face of every level. */
    method AllocateTarget(gl: Gl, point: nat, minFilter: nat, ghost w: nat, ghost lo: nat, ghost hi: nat) returns (texture: nat)
      requires gl.Valid() && CubeChain(mips, w, lo, hi) && |mips| > 0
      modifies gl`live, gl`next, gl`texParams, gl`attachments, gl`boundFramebuffer
      ensures gl.Valid() && old(gl.next) <= texture < gl.next
      ensures CubeTargetReady(mips, gl.texParams, gl.attachments, point, texture, minFilter)
      ensures gl.live == old(gl.live) + {Handle(Texture, texture)}
      ensures gl.texParams == old(gl.texParams)[texture := TexParams(minFilter, |mips| - 1)]
      ensures KeptBelow(old(gl.texParams), gl.texParams, old(gl.next))
      ensures SameAttachmentsExcept(old(gl.attachments), gl.attachments, point)
      ensures AttachmentsKeptBelow(old(gl.attachments), gl.attachments, lo)
      ensures gl.boundFramebuffer == LastFbo(mips)
    {
      texture := gl.Gen(Texture);
      gl.SetTexParams(texture, TexParams(minFilter, |mips| - 1));
      AttachEveryLevel(gl, point, texture, w, lo, hi);
    }

    /** A binding at one point survives binding another point. */
    static lemma TargetKept(ms: seq<CubeLevel>, params: map<nat, TexParams>, params': map<nat, TexParams>,
                            before: map<(nat, nat), Attachment>, after: map<(nat, nat), Attachment>,
                            point: nat, p: nat, texture: nat, minFilter: nat)
      requires CubeTargetReady(ms, params, before, p, texture, minFilter)
      requires SameAttachmentsExcept(before, after, point) && p != point
      requires texture in params' && params'[texture] == params[texture]
      ensures CubeTargetReady(ms, params', after, p, texture, minFilter)
    {
      assert forall l, i :: 0 <= l < |ms| && 0 <= i < |ms[l].fbos| ==> (ms[l].fbos[i], p) in before;
    }

    /**
      The color step of `allocate`: a color cube texture when `internalFormat` is not
      `GL_NONE`, otherwise no color texture and every framebuffer drawing to nothing.
    */
    method AttachColor(gl: Gl, internalFormat: nat, minFilter: nat, ghost w: nat, ghost lo: nat, ghost hi: nat)
      requires gl.Valid() && CubeChain(mips, w, lo, hi) && |mips| > 0 && color == 0
      modifies this`color, gl`live, gl`next, gl`texParams, gl`attachments, gl`boundFramebuffer, gl`drawBuffers
      ensures gl.Valid() && old(gl.next) <= gl.next
      ensures gl.live == old(gl.live) + (if color != 0 then {Handle(Texture, color)} else {})
      ensures color == 0 || old(gl.next) <= color < gl.next
      ensures internalFormat != GL_NONE ==> CubeTargetReady(mips, gl.texParams, gl.attachments, GL_COLOR_ATTACHMENT0, color, minFilter)
      ensures internalFormat != GL_NONE ==> gl.drawBuffers == old(gl.drawBuffers)
      ensures internalFormat == GL_NONE ==> color == 0 && CubeDrawsTo(mips, gl.drawBuffers, [GL_NONE])
      ensures AttachmentsKeptBelow(old(gl.attachments), gl.attachments, lo)
      ensures KeptBelow(old(gl.drawBuffers), gl.drawBuffers, lo)
      ensures KeptBelow(old(gl.texParams), gl.texParams, old(gl.next))
    {
      if internalFormat != GL_NONE {
        color := AllocateTarget(gl, GL_COLOR_ATTACHMENT0, minFilter, w, lo, hi);
      } else {
        DrawNothing(gl, w, lo, hi);
      }
    }

    /** The color and depth steps of `allocate`, on a chain already built. */
    method AttachTargets(gl: Gl, internalFormat: nat, ghost w: nat, ghost lo: nat, ghost hi: nat)
      requires gl.Valid() && CubeChain(mips, w, lo, hi) && |mips| > 0 && color == 0 && depth == 0 && hi <= gl.next
      modifies this`color, this`depth, gl`live, gl`next, gl`texParams, gl`attachments, gl`boundFramebuffer, gl`drawBuffers
      ensures gl.Valid() && old(gl.next) <= gl.next
      ensures gl.live == old(gl.live) + (if color != 0 then {Handle(Texture, color)} else {}) + {Handle(Texture, depth)}
      ensures color == 0 || old(gl.next) <= color
      ensures old(gl.next) <= depth
      ensures internalFormat != GL_NONE ==>
        CubeTargetReady(mips, gl.texParams, gl.attachments, GL_COLOR_ATTACHMENT0, color, MinFilterFor(|mips|))
      ensures internalFormat == GL_NONE ==> color == 0 && CubeDrawsTo(mips, gl.drawBuffers, [GL_NONE])
      ensures CubeTargetReady(mips, gl.texParams, gl.attachments, GL_DEPTH_ATTACHMENT, depth, MinFilterFor(|mips|))
      ensures internalFormat != GL_NONE ==> gl.drawBuffers == old(gl.drawBuffers)
      ensures AttachmentsKeptBelow(old(gl.attachments), gl.attachments, lo)
      ensures KeptBelow(old(gl.drawBuffers), gl.drawBuffers, lo)
      ensures KeptBelow(old(gl.texParams), gl.texParams, lo)
    {
      var minFilter := MinFilterFor(|mips|);
      assert lo <= mips[0].fbos[0] < hi;
      AttachColor(gl, internalFormat, minFilter, w, lo, hi);
      ghost var params := gl.texParams;
      ghost var before := gl.attachments;
      ghost var nextBefore := gl.next;
      depth := AllocateTarget(gl, GL_DEPTH_ATTACHMENT, minFilter, w, lo, hi);
      AttachmentsKeptBelowTrans(old(gl.attachments), before, gl.attachments, lo);
      KeptBelowTrans(old(gl.texParams), params, gl.texParams, old(gl.next), nextBefore, lo);
      if internalFormat != GL_NONE {
        assert color < nextBefore <= depth;
        TargetKept(mips, params, gl.texParams, before, gl.attachments, GL_DEPTH_ATTACHMENT,
                   GL_COLOR_ATTACHMENT0, color, minFilter);
      }
    }

    /**
      The completeness loop of `allocate` over the faces of level `l`: binds each framebuffer
      and stops at the first incomplete one, which stays bound.
    */
    method CheckLevel(gl: Gl, l: nat, complete: nat -> bool) returns (ok: bool)
      requires l < |mips| && |mips[l].fbos| == FACES
      modifies gl`boundFramebuffer
      ensures ok <==> forall i :: 0 <= i < FACES ==> complete(mips[l].fbos[i])
      ensures !ok ==> gl.boundFramebuffer in mips[l].fbos && !complete(gl.boundFramebuffer)
      ensures !ok ==> exists i :: (0 <= i < FACES && gl.boundFramebuffer == mips[l].fbos[i]
                                   && forall j :: 0 <= j < i ==> complete(mips[l].fbos[j]))
    {
      var fbos := mips[l].fbos;
      for i := 0 to FACES
        invariant forall j :: 0 <= j < i ==> complete(fbos[j])
      {
        gl.BindFramebuffer(fbos[i]);
        if !complete(fbos[i]) {
          assert gl.boundFramebuffer == mips[l].fbos[i];
          return false;
        }
      }
      return true;
    }

    /**
      The completeness loop of `allocate`: `LGI_REQUIRE` on every framebuffer in order. A
      false `ok` is the exception, thrown with the first incomplete framebuffer (level by
      level, face by face) bound;
      otherwise framebuffer 0 is bound.
    */
    method CheckAll(gl: Gl, complete: nat -> bool, ghost w: nat, ghost lo: nat, ghost hi: nat) returns (ok: bool)
      requires CubeChain(mips, w, lo, hi)
      modifies gl`boundFramebuffer
      ensures ok <==> AllComplete(mips, complete)
      ensures ok ==> gl.boundFramebuffer == 0
      ensures !ok ==> !complete(gl.boundFramebuffer)
      ensures !ok ==> exists l, i :: 0 <= l < |mips| && 0 <= i < FACES && gl.boundFramebuffer == mips[l].fbos[i]
      ensures !ok ==> exists l, i :: FirstIncomplete(mips, complete, l, i) && gl.boundFramebuffer == mips[l].fbos[i]
    {
      for l := 0 to |mips|
        invariant AllComplete(mips[..l], complete)
      {
        ok := CheckLevel(gl, l, complete);
        if !ok {
          var i :| 0 <= i < FACES && gl.boundFramebuffer == mips[l].fbos[i]
            && forall j :: 0 <= j < i ==> complete(mips[l].fbos[j]);
          assert FirstIncomplete(mips, complete, l, i);
          assert !AllComplete(mips, complete) by {
            assert !complete(mips[l].fbos[i]);
          }
          return;
        }
        assert forall m :: 0 <= m <= l ==> mips[..l + 1][m] == mips[m];
      }
      assert mips[..|mips|] == mips;
      gl.BindFramebuffer(0);
      ok := true;
    }

    /** The building part of `allocate`, from a released group. */
    method AllocateFresh(gl: Gl, w: nat, levels: nat, internalFormat: nat, complete: nat -> bool) returns (ok: bool)
      requires gl.Valid() && mips == [] && color == 0 && depth == 0 && w >= 1
      modifies this`mips, this`color, this`depth
      modifies gl`live, gl`next, gl`texParams, gl`attachments, gl`boundFramebuffer, gl`drawBuffers
      ensures gl.Valid() && old(gl.next) <= gl.next
      ensures |mips| == CubeMipCount(w, levels)
      ensures CubeChain(mips, w, old(gl.next), gl.next)
      ensures gl.live == old(gl.live) + Owned()
      ensures forall x :: x in Owned() ==> old(gl.next) <= x.id
      ensures internalFormat != GL_NONE ==>
        CubeTargetReady(mips, gl.texParams, gl.attachments, GL_COLOR_ATTACHMENT0, color, MinFilterFor(|mips|))
      ensures internalFormat == GL_NONE ==> color == 0 && CubeDrawsTo(mips, gl.drawBuffers, [GL_NONE])
      ensures CubeTargetReady(mips, gl.texParams, gl.attachments, GL_DEPTH_ATTACHMENT, depth, MinFilterFor(|mips|))
      ensures ok <==> AllComplete(mips, complete)
      ensures ok ==> gl.boundFramebuffer == 0
      ensures !ok ==> !complete(gl.boundFramebuffer)
      ensures internalFormat != GL_NONE ==> gl.drawBuffers == old(gl.drawBuffers)
      ensures AttachmentsKeptBelow(old(gl.attachments), gl.attachments, old(gl.next))
      ensures KeptBelow(old(gl.drawBuffers), gl.drawBuffers, old(gl.next))
      ensures KeptBelow(old(gl.texParams), gl.texParams, old(gl.next))
    {
      BuildMips(gl, w, levels);
      ghost var hi := gl.next;
      MipLevelsNonEmpty(w, 1, levels, 0);
      CubeMipLoopGuard(w, levels, 0);
      AttachTargets(gl, internalFormat, w, old(gl.next), hi);
      ok := CheckAll(gl, complete, w, old(gl.next), hi);
      CubeFboHandlesAbove(mips, old(gl.next));
    }

    /**
      `allocate(w, levels, internalFormat)`: releases the previous group, then builds a chain
      of CubeMipCount(w, levels) levels of six framebuffers each, a color cube texture when
      `internalFormat` is not `GL_NONE`, and a depth cube texture. `complete` is the driver's
      completeness answer; a false `ok` is the `LGI_REQUIRE` failure.
    */
    method Allocate(gl: Gl, w: nat, levels: nat, internalFormat: nat, complete: nat -> bool) returns (ok: bool)
      requires Valid(gl) && w >= 1
      modifies this`mips, this`color, this`depth
      modifies gl`live, gl`next, gl`texParams, gl`attachments, gl`boundFramebuffer, gl`drawBuffers
      ensures Valid(gl)
      ensures |mips| == CubeMipCount(w, levels)
      ensures CubeChain(mips, w, old(gl.next), gl.next)
      ensures gl.live == (old(gl.live) - old(Owned())) + Owned()
      ensures forall x :: x in Owned() ==> x !in old(gl.live)
      ensures internalFormat != GL_NONE ==>
        CubeTargetReady(mips, gl.texParams, gl.attachments, GL_COLOR_ATTACHMENT0, color, MinFilterFor(|mips|))
      ensures internalFormat == GL_NONE ==> color == 0 && CubeDrawsTo(mips, gl.drawBuffers, [GL_NONE])
      ensures CubeTargetReady(mips, gl.texParams, gl.attachments, GL_DEPTH_ATTACHMENT, depth, MinFilterFor(|mips|))
      ensures ok <==> AllComplete(mips, complete)
      ensures ok ==> gl.boundFramebuffer == 0
      ensures !ok ==> !complete(gl.boundFramebuffer)
      // state of other objects: attachments, draw lists and texture parameters of older ids
      ensures internalFormat != GL_NONE ==> gl.drawBuffers == old(gl.drawBuffers)
      ensures AttachmentsKeptBelow(old(gl.attachments), gl.attachments, old(gl.next))
      ensures KeptBelow(old(gl.drawBuffers), gl.drawBuffers, old(gl.next))
      ensures KeptBelow(old(gl.texParams), gl.texParams, old(gl.next))
    {
      Cleanup(gl);
      ok := AllocateFresh(gl, w, levels, internalFormat, complete);
    }
  }
}
