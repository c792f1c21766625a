/**
  `SimpleFBO`: a 2D mip chain of render targets. Each level has its own framebuffer; up to
  `colorBufferCount` color textures and one optional depth texture span the whole chain,
  level `l` of each texture being attached to the framebuffer of level `l`.
*/
module SimpleFramebuffer {
  import opened Wrappers
  import opened Driver
  import opened MipChain

  datatype MipLevel = MipLevel(width: nat, height: nat, fbo: nat)

  datatype RenderTarget = RenderTarget(internalFormat: int, texture: nat)

  /** Texture handles held by a sequence of render-target slots. */
  ghost function ColorHandles(cs: seq<RenderTarget>): set<Handle>
  {
    set j | 0 <= j < |cs| && cs[j].texture != 0 :: Handle(Texture, cs[j].texture)
  }

  /** Framebuffer handles held by a sequence of mip levels. */
  ghost function FboHandles(ms: seq<MipLevel>): set<Handle>
  {
    set l | 0 <= l < |ms| && ms[l].fbo != 0 :: Handle(Framebuffer, ms[l].fbo)
  }

  lemma ColorHandlesStep(cs: seq<RenderTarget>, i: nat)
    requires i < |cs|
    ensures ColorHandles(cs[..i + 1])
      == ColorHandles(cs[..i]) + (if cs[i].texture != 0 then {Handle(Texture, cs[i].texture)} else {})
  {
    assert forall j :: 0 <= j < i ==> cs[..i + 1][j] == cs[..i][j];
  }

  lemma FboHandlesStep(ms: seq<MipLevel>, l: nat)
    requires l < |ms|
    ensures FboHandles(ms[..l + 1])
      == FboHandles(ms[..l]) + (if ms[l].fbo != 0 then {Handle(Framebuffer, ms[l].fbo)} else {})
  {
    assert forall k :: 0 <= k < l ==> ms[..l + 1][k] == ms[..l][k];
  }

  /** The draw-buffer list of a framebuffer with `n` color outputs: slot `i` draws to `COLOR_ATTACHMENT0 + i`. */
  function DrawBufferList(n: nat): (r: seq<nat>)
    ensures |r| == n && forall i :: 0 <= i < n ==> r[i] == GL_COLOR_ATTACHMENT0 + i
  {
    seq(n, i => GL_COLOR_ATTACHMENT0 + i)
  }

  /** The framebuffer ids of a chain. */
  ghost function ChainFbos(ms: seq<MipLevel>): set<nat>
  {
    set l | 0 <= l < |ms| :: ms[l].fbo
  }

  /** A chain whose framebuffer ids are all at least `lo` holds no id below `lo`. */
  lemma ChainFbosAbove(ms: seq<MipLevel>, lo: nat)
    requires forall l :: 0 <= l < |ms| ==> lo <= ms[l].fbo
    ensures forall f :: f in ChainFbos(ms) ==> lo <= f
  {
  }

  /** Framebuffers of distinct levels are distinct objects. */
  ghost predicate DistinctFbos(ms: seq<MipLevel>)
  {
    forall l, k :: 0 <= l < k < |ms| ==> ms[l].fbo < ms[k].fbo
  }

  /**
    The chain built so far: level `l` is `w >> l` by `h >> l`, and its framebuffer ids are
    increasing and were handed out in `[lo, hi)`.
  */
  ghost predicate HalvingChain(ms: seq<MipLevel>, w: nat, h: nat, lo: nat, hi: nat)
  {
    && (forall l {:trigger ms[l]} :: 0 <= l < |ms| ==> ms[l].width == Shr(w, l) && ms[l].height == Shr(h, l))
    && (forall l :: 0 <= l < |ms| ==> lo <= ms[l].fbo < hi)
    && DistinctFbos(ms)
  }

  /** A chain whose ids were handed out below `hi` was handed out below any later `hi'` as well. */
  lemma HalvingChainWiden(ms: seq<MipLevel>, w: nat, h: nat, lo: nat, hi: nat, hi': nat)
    requires HalvingChain(ms, w, h, lo, hi) && hi <= hi'
    ensures HalvingChain(ms, w, h, lo, hi')
  {
  }

  lemma HalvingChainSnoc(ms: seq<MipLevel>, w: nat, h: nat, lo: nat, mid: nat, hi: nat, fbo: nat)
    requires HalvingChain(ms, w, h, lo, mid) && lo <= mid <= fbo < hi
    ensures HalvingChain(ms + [MipLevel(Shr(w, |ms|), Shr(h, |ms|), fbo)], w, h, lo, hi)
  {
    var ms' := ms + [MipLevel(Shr(w, |ms|), Shr(h, |ms|), fbo)];
    assert forall l :: 0 <= l < |ms| ==> ms'[l] == ms[l];
  }

  lemma FboHandlesSnoc(ms: seq<MipLevel>, m: MipLevel)
    requires m.fbo != 0
    ensures FboHandles(ms + [m]) == FboHandles(ms) + {Handle(Framebuffer, m.fbo)}
  {
    var ms' := ms + [m];
    assert forall l :: 0 <= l < |ms| ==> ms'[l] == ms[l];
    assert ms'[|ms|] == m;
  }

  /** Every texture handle of `cs` was handed out at or after `lo`. */
  lemma ColorHandlesAbove(cs: seq<RenderTarget>, lo: nat)
    requires forall j :: 0 <= j < |cs| ==> cs[j].texture == 0 || lo <= cs[j].texture
    ensures forall x :: x in ColorHandles(cs) ==> lo <= x.id
  {
  }

  /** Every framebuffer handle of `ms` was handed out at or after `lo`. */
  lemma FboHandlesAbove(ms: seq<MipLevel>, lo: nat)
    requires forall l :: 0 <= l < |ms| ==> ms[l].fbo == 0 || lo <= ms[l].fbo
    ensures forall x :: x in FboHandles(ms) ==> lo <= x.id
  {
  }

  /** The handles added by building the levels, then the color and depth targets, are those of the group. */
  lemma GroupAdded(live: set<Handle>, fbos: set<Handle>, colors: set<Handle>, depth: set<Handle>)
    ensures live + fbos + colors + depth == live + (colors + depth + fbos)
  {
  }

  /** Every handle of a group of color targets, a depth texture and levels was handed out at or after `lo`. */
  lemma GroupHandlesAbove(cs: seq<RenderTarget>, depth: nat, ms: seq<MipLevel>, lo: nat)
    requires forall j :: 0 <= j < |cs| ==> cs[j].texture == 0 || lo <= cs[j].texture
    requires depth == 0 || lo <= depth
    requires forall l :: 0 <= l < |ms| ==> ms[l].fbo == 0 || lo <= ms[l].fbo
    ensures forall x :: x in ColorHandles(cs) + (if depth != 0 then {Handle(Texture, depth)} else {}) + FboHandles(ms) ==> lo <= x.id
  {
    ColorHandlesAbove(cs, lo);
    FboHandlesAbove(ms, lo);
  }

  /** The framebuffer of every level `l` of `ms` has level `l` of the 2D texture `texture` bound at `point`. */
  ghost predicate AttachedAtEveryLevel(ms: seq<MipLevel>, attachments: map<(nat, nat), Attachment>, point: nat, texture: nat)
  {
    forall l :: 0 <= l < |ms| ==>
      (ms[l].fbo, point) in attachments && attachments[(ms[l].fbo, point)] == Attachment(GL_TEXTURE_2D, texture, l)
  }

  /**
    `texture` is a texture spanning the chain `ms`: it has the chain's mip range and minification
    filter, and is bound at `point` of every level.
  */
  ghost predicate TargetReady(ms: seq<MipLevel>, texParams: map<nat, TexParams>, attachments: map<(nat, nat), Attachment>,
                              point: nat, texture: nat, minFilter: nat)
  {
    && texture != 0
    && texture in texParams && texParams[texture] == TexParams(minFilter, |ms| - 1)
    && AttachedAtEveryLevel(ms, attachments, point, texture)
  }

  /** A binding at one point survives binding another point. */
  lemma TargetReadyKept(ms: seq<MipLevel>, params: map<nat, TexParams>, params': map<nat, TexParams>,
                        before: map<(nat, nat), Attachment>, after: map<(nat, nat), Attachment>,
                        point: nat, p: nat, texture: nat, minFilter: nat)
    requires TargetReady(ms, params, before, p, texture, minFilter)
    requires SameAttachmentsExcept(before, after, point) && p != point
    requires texture in params' && params'[texture] == params[texture]
    ensures TargetReady(ms, params', after, p, texture, minFilter)
  {
    assert forall l :: 0 <= l < |ms| ==> (ms[l].fbo, p) in before;
  }

  /**
    The color targets `cs` hold the formats `cf`, textures handed out in `[lo, next)`, and
    each of those textures spans the chain `ms` at its own color point.
  */
  ghost predicate ColorTargetsReady(ms: seq<MipLevel>, cs: seq<RenderTarget>, cf: seq<int>, params: map<nat, TexParams>,
                                    attachments: map<(nat, nat), Attachment>, minFilter: nat, lo: nat, next: nat)
    requires |cs| <= |cf|
  {
    forall j :: 0 <= j < |cs| ==>
      && cs[j].internalFormat == cf[j] && lo <= cs[j].texture < next
      && TargetReady(ms, params, attachments, GL_COLOR_ATTACHMENT0 + j, cs[j].texture, minFilter)
  }

  /**
    Giving a texture handed out at or after `next` new parameters, and binding it at a point
    other than the color points of `cs`, keeps those color targets ready.
  */
  lemma ColorTargetsReadyKept(ms: seq<MipLevel>, cs: seq<RenderTarget>, cf: seq<int>,
                              params: map<nat, TexParams>, params': map<nat, TexParams>,
                              before: map<(nat, nat), Attachment>, after: map<(nat, nat), Attachment>,
                              minFilter: nat, lo: nat, next: nat, next': nat, point: nat, newTexture: nat)
    requires |cs| <= |cf| && ColorTargetsReady(ms, cs, cf, params, before, minFilter, lo, next)
    requires next <= newTexture && next <= next'
    requires newTexture in params' && params' == params[newTexture := params'[newTexture]]
    requires SameAttachmentsExcept(before, after, point)
    requires point < GL_COLOR_ATTACHMENT0 || GL_COLOR_ATTACHMENT0 + |cs| <= point
    ensures ColorTargetsReady(ms, cs, cf, params', after, minFilter, lo, next')
  {
    forall j | 0 <= j < |cs|
      ensures TargetReady(ms, params', after, GL_COLOR_ATTACHMENT0 + j, cs[j].texture, minFilter)
    {
      TargetReadyKept(ms, params, params', before, after, point,
                      GL_COLOR_ATTACHMENT0 + j, cs[j].texture, minFilter);
    }
  }

  /** One more ready color target, bound at the next color point, extends the ready ones. */
  lemma ColorTargetsReadySnoc(ms: seq<MipLevel>, cs: seq<RenderTarget>, c: RenderTarget, cf: seq<int>,
                              params: map<nat, TexParams>, attachments: map<(nat, nat), Attachment>,
                              minFilter: nat, lo: nat, next: nat)
    requires |cs| < |cf| && ColorTargetsReady(ms, cs, cf, params, attachments, minFilter, lo, next)
    requires c.internalFormat == cf[|cs|] && lo <= c.texture < next
    requires TargetReady(ms, params, attachments, GL_COLOR_ATTACHMENT0 + |cs|, c.texture, minFilter)
    ensures ColorTargetsReady(ms, cs + [c], cf, params, attachments, minFilter, lo, next)
  {
    var cs' := cs + [c];
    assert forall j :: 0 <= j < |cs| ==> cs'[j] == cs[j];
  }

  class SimpleFBO {
    var colorTextureTarget: nat
    var mips: seq<MipLevel>
    const colors: array<RenderTarget>
    var depth: nat
    const colorBufferCount: nat
    const hasDepth: bool

    /** The handles this object must release: its color textures, its depth texture and its per-level framebuffers. */
    ghost function Owned(): set<Handle>
      reads this, colors
      requires colorBufferCount <= colors.Length
    {
      ColorHandles(colors[..colorBufferCount])
        + (if depth != 0 then {Handle(Texture, depth)} else {})
        + FboHandles(mips)
    }

    /** Everything the object holds is alive in the driver. */
    ghost predicate Valid(gl: Gl)
      reads this, colors, gl
    {
      colors.Length == 8 && colorBufferCount < 8 && gl.Valid() && Owned() <= gl.live
    }

    constructor (colorBufferCount: nat, depth: bool)
      requires colorBufferCount < 8
      ensures this.colorBufferCount == colorBufferCount && this.hasDepth == depth
      ensures colors.Length == 8 && fresh(colors)
      ensures mips == [] && this.depth == 0 && colorTextureTarget == GL_TEXTURE_2D
      ensures forall i :: 0 <= i < 8 ==> colors[i] == RenderTarget(0, 0)
      ensures Owned() == {}
    {
      this.colorBufferCount := colorBufferCount;
      this.hasDepth := depth;
      colors := new RenderTarget[8](_ => RenderTarget(0, 0));
      mips := [];
      this.depth := 0;
      colorTextureTarget := GL_TEXTURE_2D;
    }

    /** The color loop of `cleanup`: deletes every non-zero texture of the first `colorBufferCount` slots. */
    method ReleaseColors(gl: Gl)
      requires gl.Valid() && colorBufferCount <= colors.Length
      modifies colors, gl`live
      ensures gl.Valid()
      ensures gl.live == old(gl.live) - old(ColorHandles(colors[..colorBufferCount]))
      ensures forall i :: 0 <= i < colorBufferCount ==> colors[i] == old(colors[i]).(texture := 0)
      ensures forall i :: colorBufferCount <= i < colors.Length ==> colors[i] == old(colors[i])
      ensures ColorHandles(colors[..colorBufferCount]) == {}
    {
      ghost var oldColors := colors[..colorBufferCount];
      for i := 0 to colorBufferCount
        modifies colors, gl`live
        invariant forall j :: 0 <= j < i ==> colors[j] == old(colors[j]).(texture := 0)
        invariant forall j :: i <= j < colors.Length ==> colors[j] == old(colors[j])
        invariant gl.Valid()
        invariant gl.live == old(gl.live) - ColorHandles(oldColors[..i])
      {
        ColorHandlesStep(oldColors, i);
        if colors[i].texture != 0 {
          gl.Delete(Texture, colors[i].texture);
          colors[i] := colors[i].(texture := 0);
        }
      }
      assert oldColors[..colorBufferCount] == oldColors;
    }

    /** The framebuffer loop of `cleanup`: deletes every non-zero per-level framebuffer, then empties the chain. */
    method ReleaseFbos(gl: Gl)
      requires gl.Valid()
      modifies this`mips, gl`live
      ensures gl.Valid()
      ensures gl.live == old(gl.live) - old(FboHandles(mips))
      ensures mips == []
    {
      ghost var oldMips := mips;
      for l := 0 to |mips|
        modifies this`mips, gl`live
        invariant |mips| == |oldMips|
        invariant forall k :: l <= k < |mips| ==> mips[k] == oldMips[k]
        invariant gl.Valid()
        invariant gl.live == old(gl.live) - FboHandles(oldMips[..l])
      {
        FboHandlesStep(oldMips, l);
        if mips[l].fbo != 0 {
          gl.Delete(Framebuffer, mips[l].fbo);
          mips := mips[l := mips[l].(fbo := 0)];
        }
      }
      assert oldMips[..|oldMips|] == oldMips;
      mips := [];
    }

    /**
      Releases every color texture below `colorBufferCount`, the depth texture and every
      per-level framebuffer, and empties the chain. Formats are kept.
    */
    method Cleanup(gl: Gl)
      requires Valid(gl)
      modifies colors, this`depth, this`mips, gl`live
      ensures Valid(gl)
      ensures gl.live == old(gl.live) - old(Owned())
      ensures Owned() == {} && mips == [] && depth == 0
      ensures forall i :: 0 <= i < colorBufferCount ==> colors[i] == old(colors[i]).(texture := 0)
      ensures forall i :: colorBufferCount <= i < colors.Length ==> colors[i] == old(colors[i])
    {
      ReleaseColors(gl);
      if depth != 0 {
        gl.Delete(Texture, depth);
        depth := 0;
      }
      ReleaseFbos(gl);
    }

    /** `_mips.push_back({w, h, 0})` followed by `glGenFramebuffers` into the new level. */
    method PushLevel(gl: Gl, w: nat, h: nat) returns (fbo: nat)
      requires gl.Valid()
      modifies this`mips, gl`live, gl`next
      ensures gl.Valid() && old(gl.next) <= fbo < gl.next && fbo != 0
      ensures mips == old(mips) + [MipLevel(w, h, fbo)]
      ensures gl.live == old(gl.live) + {Handle(Framebuffer, fbo)}
    {
      fbo := gl.Gen(Framebuffer);
      mips := mips + [MipLevel(w, h, fbo)];
    }

    /** The `while` loop that builds the chain: one fresh framebuffer per level, each level half the previous. */
    method BuildMips(gl: Gl, w: nat, h: nat, levels: nat)
      requires gl.Valid() && mips == [] && w >= 1 && h >= 1
      modifies this`mips, gl`live, gl`next
      ensures gl.Valid() && old(gl.next) <= gl.next
      ensures |mips| == MipCount(w, h, levels)
      ensures HalvingChain(mips, w, h, old(gl.next), gl.next)
      ensures gl.live == old(gl.live) + FboHandles(mips)
    {
      var cw, ch := w, h;
      while cw > 0 && ch > 0 && (levels == 0 || |mips| < levels)
        invariant gl.Valid() && old(gl.next) <= gl.next
        invariant cw == Shr(w, |mips|) && ch == Shr(h, |mips|)
        invariant |mips| <= MipCount(w, h, levels)
        invariant HalvingChain(mips, w, h, old(gl.next), gl.next)
        invariant gl.live == old(gl.live) + FboHandles(mips)
        decreases MipCount(w, h, levels) - |mips|
      {
        MipLoopGuard(w, h, levels, |mips|);
        ghost var before := mips;
        ghost var nextBefore := gl.next;
        var fbo := PushLevel(gl, cw, ch);
        HalvingChainSnoc(before, w, h, old(gl.next), nextBefore, gl.next, fbo);
        FboHandlesSnoc(before, MipLevel(cw, ch, fbo));
        cw := cw / 2;
        ch := ch / 2;
      }
      MipLoopGuard(w, h, levels, |mips|);
    }

    /** Binds level `l` of `texture` at `point` of the framebuffer of every level `l`, leaving the other points alone. */
    method AttachEveryLevel(gl: Gl, point: nat, texture: nat)
      requires DistinctFbos(mips) && |mips| > 0
      modifies gl`attachments, gl`boundFramebuffer
      ensures AttachedAtEveryLevel(mips, gl.attachments, point, texture)
      ensures SameAttachmentsExcept(old(gl.attachments), gl.attachments, point)
      ensures AttachmentsKeptOutside(old(gl.attachments), gl.attachments, ChainFbos(mips))
      ensures gl.boundFramebuffer == mips[|mips| - 1].fbo
    {
      for l := 0 to |mips|
        invariant forall m :: 0 <= m < l ==>
          (mips[m].fbo, point) in gl.attachments && gl.attachments[(mips[m].fbo, point)] == Attachment(GL_TEXTURE_2D, texture, m)
        invariant SameAttachmentsExcept(old(gl.attachments), gl.attachments, point)
        invariant AttachmentsKeptOutside(old(gl.attachments), gl.attachments, ChainFbos(mips))
        invariant l > 0 ==> gl.boundFramebuffer == mips[l - 1].fbo
      {
        assert mips[l].fbo in ChainFbos(mips);
        gl.BindFramebuffer(mips[l].fbo);
        // For the depth texture, the per-level `glTexImage2D` storage upload is not modelled.
        gl.FramebufferTexture(point, GL_TEXTURE_2D, texture, l);
      }
    }

    /** One iteration of the color loop: a fresh texture for slot `i`, bound at `COLOR_ATTACHMENT0 + i` of every level. */
    method AllocateColor(gl: Gl, i: nat, format: int, minFilter: nat)
      requires gl.Valid() && colors.Length == 8 && i < 8 && DistinctFbos(mips) && |mips| > 0
      modifies colors, gl`live, gl`next, gl`texParams, gl`attachments, gl`boundFramebuffer
      ensures gl.Valid() && old(gl.next) <= gl.next
      ensures colors[i].internalFormat == format && old(gl.next) <= colors[i].texture < gl.next
      ensures TargetReady(mips, gl.texParams, gl.attachments, GL_COLOR_ATTACHMENT0 + i, colors[i].texture, minFilter)
      ensures gl.live == old(gl.live) + {Handle(Texture, colors[i].texture)}
      ensures forall j :: 0 <= j < colors.Length && j != i ==> colors[j] == old(colors[j])
      ensures gl.texParams == old(gl.texParams)[colors[i].texture := TexParams(minFilter, |mips| - 1)]
      ensures KeptBelow(old(gl.texParams), gl.texParams, old(gl.next))
      ensures SameAttachmentsExcept(old(gl.attachments), gl.attachments, GL_COLOR_ATTACHMENT0 + i)
      ensures AttachmentsKeptOutside(old(gl.attachments), gl.attachments, ChainFbos(mips))
      ensures gl.boundFramebuffer == mips[|mips| - 1].fbo
    {
      var tex := gl.Gen(Texture);
      colors[i] := RenderTarget(format, tex);
      gl.SetTexParams(tex, TexParams(minFilter, |mips| - 1));
      AttachEveryLevel(gl, GL_COLOR_ATTACHMENT0 + i, tex);
    }

    /** Slots below `n` hold the formats `cf` and textures spanning the chain, handed out at or after `lo`. */
    ghost predicate ColorsReady(gl: Gl, n: nat, cf: seq<int>, minFilter: nat, lo: nat)
      reads this`mips, colors, gl`next, gl`texParams, gl`attachments
      requires n <= colors.Length && n <= |cf|
    {
      ColorTargetsReady(mips, colors[..n], cf, gl.texParams, gl.attachments, minFilter, lo, gl.next)
    }

    /** The color loop of `allocate`: one fresh texture per slot below `colorBufferCount`, in format `cf[i]`. */
    method AllocateColors(gl: Gl, cf: seq<int>, minFilter: nat)
      requires gl.Valid() && colors.Length == 8 && colorBufferCount < 8 && |cf| >= colorBufferCount
      requires DistinctFbos(mips) && |mips| > 0
      modifies colors, gl`live, gl`next, gl`texParams, gl`attachments, gl`boundFramebuffer
      ensures gl.Valid() && old(gl.next) <= gl.next
      ensures ColorsReady(gl, colorBufferCount, cf, minFilter, old(gl.next))
      ensures forall j :: colorBufferCount <= j < colors.Length ==> colors[j] == old(colors[j])
      ensures gl.live == old(gl.live) + ColorHandles(colors[..colorBufferCount])
      ensures colorBufferCount > 0 ==> gl.boundFramebuffer == mips[|mips| - 1].fbo
      ensures colorBufferCount == 0 ==> gl.boundFramebuffer == old(gl.boundFramebuffer)
      ensures AttachmentsKeptOutside(old(gl.attachments), gl.attachments, ChainFbos(mips))
      ensures KeptBelow(old(gl.texParams), gl.texParams, old(gl.next))
    {
      for i := 0 to colorBufferCount
        invariant gl.Valid() && old(gl.next) <= gl.next
        invariant ColorsReady(gl, i, cf, minFilter, old(gl.next))
        invariant forall j :: i <= j < colors.Length ==> colors[j] == old(colors[j])
        invariant gl.live == old(gl.live) + ColorHandles(colors[..i])
        invariant i > 0 ==> gl.boundFramebuffer == mips[|mips| - 1].fbo
        invariant i == 0 ==> gl.boundFramebuffer == old(gl.boundFramebuffer)
        invariant AttachmentsKeptOutside(old(gl.attachments), gl.attachments, ChainFbos(mips))
        invariant KeptBelow(old(gl.texParams), gl.texParams, old(gl.next))
      {
        ColorStep(gl, i, cf, minFilter, old(gl.next), old(gl.live));
      }
    }

    /** One iteration of the color loop, seen from the loop: slot `i` joins the ready slots below it. */
    method ColorStep(gl: Gl, i: nat, cf: seq<int>, minFilter: nat, ghost lo: nat, ghost base: set<Handle>)
      requires gl.Valid() && colors.Length == 8 && i < 8 && i < |cf| && DistinctFbos(mips) && |mips| > 0
      requires lo <= gl.next && ColorsReady(gl, i, cf, minFilter, lo)
      requires gl.live == base + ColorHandles(colors[..i])
      modifies colors, gl`live, gl`next, gl`texParams, gl`attachments, gl`boundFramebuffer
      ensures gl.Valid() && old(gl.next) <= gl.next
      ensures ColorsReady(gl, i + 1, cf, minFilter, lo)
      ensures forall j :: i < j < colors.Length ==> colors[j] == old(colors[j])
      ensures gl.live == base + ColorHandles(colors[..i + 1])
      ensures gl.boundFramebuffer == mips[|mips| - 1].fbo
      ensures AttachmentsKeptOutside(old(gl.attachments), gl.attachments, ChainFbos(mips))
      ensures KeptBelow(old(gl.texParams), gl.texParams, old(gl.next))
    {
      ghost var prefix := colors[..i];
      ghost var params := gl.texParams;
      ghost var before := gl.attachments;
      ghost var nextBefore := gl.next;
      AllocateColor(gl, i, cf[i], minFilter);
      assert colors[..i] == prefix;
      ColorHandlesStep(colors[..], i);
      assert colors[..][..i] == colors[..i] && colors[..][..i + 1] == colors[..i + 1] == prefix + [colors[i]];
      ColorTargetsReadyKept(mips, prefix, cf, params, gl.texParams, before, gl.attachments, minFilter, lo, nextBefore, gl.next,
                            GL_COLOR_ATTACHMENT0 + i, colors[i].texture);
      ColorTargetsReadySnoc(mips, prefix, colors[i], cf, gl.texParams, gl.attachments, minFilter, lo, gl.next);
    }

    /** `glDrawBuffers` with the same list on the framebuffer of every level. */
    method SetDrawBuffers(gl: Gl, buffers: seq<nat>)
      requires |mips| > 0
      modifies gl`drawBuffers, gl`boundFramebuffer
      ensures forall l :: 0 <= l < |mips| ==> mips[l].fbo in gl.drawBuffers && gl.drawBuffers[mips[l].fbo] == buffers
      ensures KeptOutside(old(gl.drawBuffers), gl.drawBuffers, ChainFbos(mips))
      ensures gl.boundFramebuffer == mips[|mips| - 1].fbo
    {
      for l := 0 to |mips|
        invariant forall m :: 0 <= m < l ==> mips[m].fbo in gl.drawBuffers && gl.drawBuffers[mips[m].fbo] == buffers
        invariant KeptOutside(old(gl.drawBuffers), gl.drawBuffers, ChainFbos(mips))
        invariant l > 0 ==> gl.boundFramebuffer == mips[l - 1].fbo
      {
        assert mips[l].fbo in ChainFbos(mips);
        gl.BindFramebuffer(mips[l].fbo);
        gl.DrawBuffers(buffers);
      }
    }

    /** Every level's framebuffer draws to `buffers`. */
    ghost predicate DrawsTo(gl: Gl, buffers: seq<nat>)
      reads this`mips, gl`drawBuffers
    {
      forall l :: 0 <= l < |mips| ==> mips[l].fbo in gl.drawBuffers && gl.drawBuffers[mips[l].fbo] == buffers
    }

    /**
      The color targets after `allocate`: with formats, a texture per slot in its format,
      ready at every level, and every level drawing to the color attachments; without, no
      color texture and every level drawing to nothing.
    */
    ghost predicate ColorTargets(gl: Gl, colorFormats: Option<seq<int>>, minFilter: nat, lo: nat)
      reads this`mips, this`colorTextureTarget, colors, gl`next, gl`texParams, gl`attachments, gl`drawBuffers
      requires colorBufferCount <= colors.Length
      requires colorFormats.Some? ==> |colorFormats.value| >= colorBufferCount
    {
      match colorFormats
      case Some(cf) =>
        && colorTextureTarget == GL_TEXTURE_2D
        && ColorsReady(gl, colorBufferCount, cf, minFilter, lo)
        && DrawsTo(gl, DrawBufferList(colorBufferCount))
      case None =>
        && (forall i :: 0 <= i < colorBufferCount ==> colors[i].texture == 0)
        && DrawsTo(gl, [GL_NONE])
    }

    /**
      The `if (colorFormats)` step of `allocate`: with formats, a texture per color slot and
      the draw-buffer list `COLOR_ATTACHMENT0 .. COLOR_ATTACHMENT0 + n - 1` on every level;
      without, no color texture and the draw-buffer list `{GL_NONE}`.
    */
    method AttachColorTargets(gl: Gl, colorFormats: Option<seq<int>>, minFilter: nat)
      requires gl.Valid() && colors.Length == 8 && colorBufferCount < 8
      requires colorFormats.Some? ==> |colorFormats.value| >= colorBufferCount
      requires DistinctFbos(mips) && |mips| > 0
      requires forall j :: 0 <= j < colorBufferCount ==> colors[j].texture == 0
      modifies this`colorTextureTarget, colors, gl`live, gl`next, gl`texParams, gl`attachments, gl`boundFramebuffer, gl`drawBuffers
      ensures gl.Valid() && old(gl.next) <= gl.next
      ensures gl.live == old(gl.live) + ColorHandles(colors[..colorBufferCount])
      ensures forall j :: 0 <= j < colorBufferCount ==> colors[j].texture == 0 || old(gl.next) <= colors[j].texture < gl.next
      ensures ColorTargets(gl, colorFormats, minFilter, old(gl.next))
      ensures gl.boundFramebuffer == mips[|mips| - 1].fbo
      ensures colorFormats.None? ==> unchanged(this`colorTextureTarget, colors)
      ensures AttachmentsKeptOutside(old(gl.attachments), gl.attachments, ChainFbos(mips))
      ensures KeptOutside(old(gl.drawBuffers), gl.drawBuffers, ChainFbos(mips))
      ensures KeptBelow(old(gl.texParams), gl.texParams, old(gl.next))
    {
      match colorFormats {
        case Some(cf) =>
          colorTextureTarget := GL_TEXTURE_2D;
          AllocateColors(gl, cf, minFilter);
          SetDrawBuffers(gl, DrawBufferList(colorBufferCount));
        case None =>
          assert ColorHandles(colors[..colorBufferCount]) == {};
          SetDrawBuffers(gl, [GL_NONE]);
      }
    }

    /** The `if (HAS_DEPTH)` step of `allocate`: a fresh depth texture spanning the chain. */
    method AllocateDepth(gl: Gl, minFilter: nat)
      requires gl.Valid() && DistinctFbos(mips) && |mips| > 0
      modifies this`depth, gl`live, gl`next, gl`texParams, gl`attachments, gl`boundFramebuffer
      ensures gl.Valid() && old(gl.next) <= depth < gl.next
      ensures TargetReady(mips, gl.texParams, gl.attachments, GL_DEPTH_ATTACHMENT, depth, minFilter)
      ensures gl.live == old(gl.live) + {Handle(Texture, depth)}
      ensures gl.texParams == old(gl.texParams)[depth := TexParams(minFilter, |mips| - 1)]
      ensures SameAttachmentsExcept(old(gl.attachments), gl.attachments, GL_DEPTH_ATTACHMENT)
      ensures AttachmentsKeptOutside(old(gl.attachments), gl.attachments, ChainFbos(mips))
      ensures gl.boundFramebuffer == mips[|mips| - 1].fbo
    {
      depth := gl.Gen(Texture);
      gl.SetTexParams(depth, TexParams(minFilter, |mips| - 1));
      AttachEveryLevel(gl, GL_DEPTH_ATTACHMENT, depth);
    }

    /**
      The `if (HAS_DEPTH)` step of `allocate`, seen from the color targets allocated before it:
      they stay as they were, and without a depth target nothing changes. Attachments and
      texture parameters that the color step kept from `attachments0` and `params0` stay kept.
    */
    method DepthStep(gl: Gl, colorFormats: Option<seq<int>>, minFilter: nat, ghost lo: nat,
                     ghost attachments0: map<(nat, nat), Attachment>, ghost params0: map<nat, TexParams>)
      requires gl.Valid() && colors.Length == 8 && colorBufferCount < 8 && DistinctFbos(mips) && |mips| > 0
      requires depth == 0 && gl.boundFramebuffer == mips[|mips| - 1].fbo
      requires colorFormats.Some? ==> |colorFormats.value| >= colorBufferCount
      requires ColorTargets(gl, colorFormats, minFilter, lo)
      requires lo <= gl.next && AttachmentsKeptOutside(attachments0, gl.attachments, ChainFbos(mips))
      requires KeptBelow(params0, gl.texParams, lo)
      modifies this`depth, gl`live, gl`next, gl`texParams, gl`attachments, gl`boundFramebuffer
      ensures gl.Valid() && old(gl.next) <= gl.next && (depth == 0 || old(gl.next) <= depth)
      ensures hasDepth ==> TargetReady(mips, gl.texParams, gl.attachments, GL_DEPTH_ATTACHMENT, depth, minFilter)
      ensures !hasDepth ==> depth == 0
      ensures gl.live == old(gl.live) + (if depth != 0 then {Handle(Texture, depth)} else {})
      ensures ColorTargets(gl, colorFormats, minFilter, lo)
      ensures gl.boundFramebuffer == mips[|mips| - 1].fbo
      ensures AttachmentsKeptOutside(attachments0, gl.attachments, ChainFbos(mips))
      ensures KeptBelow(params0, gl.texParams, lo)
    {
      if !hasDepth {
        return;
      }
      ghost var params := gl.texParams;
      ghost var before := gl.attachments;
      AllocateDepth(gl, minFilter);
      AttachmentsKeptOutsideTrans(attachments0, before, gl.attachments, ChainFbos(mips));
      if colorFormats.Some? {
        ColorTargetsReadyKept(mips, colors[..colorBufferCount], colorFormats.value, params, gl.texParams, before, gl.attachments,
                              minFilter, lo, old(gl.next), gl.next, GL_DEPTH_ATTACHMENT, depth);
      }
    }

    /** The `LGI_REQUIRE` on completeness: asks the driver about the framebuffer bound last and unbinds it when it is complete. */
    method CheckComplete(gl: Gl, complete: set<nat>, ghost fbo: nat) returns (ok: bool)
      requires gl.boundFramebuffer == fbo
      modifies gl`boundFramebuffer
      ensures ok == (fbo in complete)
      ensures gl.boundFramebuffer == if ok then 0 else fbo
    {
      ok := gl.boundFramebuffer in complete;
      if ok {
        gl.BindFramebuffer(0);
      }
    }

    /**
      The color step then the depth step of `allocate`, on a chain with no targets yet,
      leaving the last level's framebuffer bound.
    */
    method ColorAndDepth(gl: Gl, colorFormats: Option<seq<int>>, minFilter: nat, ghost lo: nat)
      requires gl.Valid() && colors.Length == 8 && colorBufferCount < 8
      requires DistinctFbos(mips) && |mips| > 0
      requires lo <= gl.next && forall l :: 0 <= l < |mips| ==> lo <= mips[l].fbo
      requires depth == 0 && forall j :: 0 <= j < colorBufferCount ==> colors[j].texture == 0
      requires colorFormats.Some? ==> |colorFormats.value| >= colorBufferCount
      modifies this`depth, this`colorTextureTarget, colors
      modifies gl`live, gl`next, gl`texParams, gl`attachments, gl`boundFramebuffer, gl`drawBuffers
      ensures gl.Valid() && old(gl.next) <= gl.next
      ensures gl.live == old(gl.live) + ColorHandles(colors[..colorBufferCount]) + (if depth != 0 then {Handle(Texture, depth)} else {})
      ensures forall j :: 0 <= j < colorBufferCount ==> colors[j].texture == 0 || old(gl.next) <= colors[j].texture
      ensures depth == 0 || old(gl.next) <= depth
      ensures ColorTargets(gl, colorFormats, minFilter, old(gl.next))
      ensures hasDepth ==> TargetReady(mips, gl.texParams, gl.attachments, GL_DEPTH_ATTACHMENT, depth, minFilter)
      ensures !hasDepth ==> depth == 0
      ensures gl.boundFramebuffer == mips[|mips| - 1].fbo
      ensures colorFormats.None? ==> unchanged(this`colorTextureTarget, colors)
      ensures AttachmentsKeptBelow(old(gl.attachments), gl.attachments, lo)
      ensures KeptBelow(old(gl.drawBuffers), gl.drawBuffers, lo)
      ensures KeptBelow(old(gl.texParams), gl.texParams, lo)
    {
      AttachColorTargets(gl, colorFormats, minFilter);
      DepthStep(gl, colorFormats, minFilter, old(gl.next), old(gl.attachments), old(gl.texParams));
      ChainFbosAbove(mips, lo);
      AttachmentsKeptBelowOutside(old(gl.attachments), gl.attachments, ChainFbos(mips), lo);
      KeptBelowOutside(old(gl.drawBuffers), gl.drawBuffers, ChainFbos(mips), lo);
    }

    /**
      The part of `allocate` after the chain is built: the color targets and the depth
      target, leaving the last level's framebuffer bound.
    */
    method AttachTargets(gl: Gl, colorFormats: Option<seq<int>>, ghost base: set<Handle>, ghost lo: nat)
      requires gl.Valid() && colors.Length == 8 && colorBufferCount < 8
      requires DistinctFbos(mips) && |mips| > 0
      requires depth == 0 && forall j :: 0 <= j < colorBufferCount ==> colors[j].texture == 0
      requires colorFormats.Some? ==> |colorFormats.value| >= colorBufferCount
      requires gl.live == base + FboHandles(mips)
      requires lo <= gl.next && forall l :: 0 <= l < |mips| ==> lo <= mips[l].fbo
      modifies this`depth, this`colorTextureTarget, colors
      modifies gl`live, gl`next, gl`texParams, gl`attachments, gl`boundFramebuffer, gl`drawBuffers
      ensures gl.Valid() && old(gl.next) <= gl.next
      ensures gl.live == base + Owned()
      ensures forall x :: x in Owned() ==> lo <= x.id
      ensures ColorTargets(gl, colorFormats, MinFilterFor(|mips|), old(gl.next))
      ensures hasDepth ==> TargetReady(mips, gl.texParams, gl.attachments, GL_DEPTH_ATTACHMENT, depth, MinFilterFor(|mips|))
      ensures !hasDepth ==> depth == 0
      ensures gl.boundFramebuffer == mips[|mips| - 1].fbo
      ensures colorFormats.None? ==> unchanged(this`colorTextureTarget, colors)
      ensures AttachmentsKeptBelow(old(gl.attachments), gl.attachments, lo)
      ensures KeptBelow(old(gl.drawBuffers), gl.drawBuffers, lo)
      ensures KeptBelow(old(gl.texParams), gl.texParams, lo)
    {
      ghost var fbos := FboHandles(mips);
      ColorAndDepth(gl, colorFormats, MinFilterFor(|mips|), lo);
      GroupHandlesAbove(colors[..colorBufferCount], depth, mips, lo);
      GroupAdded(base, fbos, ColorHandles(colors[..colorBufferCount]), if depth != 0 then {Handle(Texture, depth)} else {});
    }

    /**
      The building part of `allocate`, from a released group: the chain, then the targets
      spanning it, leaving the last level's framebuffer bound.
    */
    method BuildGroup(gl: Gl, w: nat, h: nat, levels: nat, colorFormats: Option<seq<int>>)
      requires gl.Valid() && colors.Length == 8 && colorBufferCount < 8 && w >= 1 && h >= 1
      requires mips == [] && depth == 0 && forall j :: 0 <= j < colorBufferCount ==> colors[j].texture == 0
      requires colorFormats.Some? ==> |colorFormats.value| >= colorBufferCount
      modifies this`mips, this`depth, this`colorTextureTarget, colors
      modifies gl`live, gl`next, gl`texParams, gl`attachments, gl`boundFramebuffer, gl`drawBuffers
      ensures gl.Valid() && old(gl.next) <= gl.next
      ensures |mips| == MipCount(w, h, levels)
      ensures HalvingChain(mips, w, h, old(gl.next), gl.next)
      ensures gl.live == old(gl.live) + Owned()
      ensures forall x :: x in Owned() ==> old(gl.next) <= x.id
      ensures ColorTargets(gl, colorFormats, MinFilterFor(|mips|), old(gl.next))
      ensures hasDepth ==> TargetReady(mips, gl.texParams, gl.attachments, GL_DEPTH_ATTACHMENT, depth, MinFilterFor(|mips|))
      ensures !hasDepth ==> depth == 0
      ensures gl.boundFramebuffer == mips[|mips| - 1].fbo
      ensures colorFormats.None? ==> unchanged(this`colorTextureTarget, colors)
      ensures AttachmentsKeptBelow(old(gl.attachments), gl.attachments, old(gl.next))
      ensures KeptBelow(old(gl.drawBuffers), gl.drawBuffers, old(gl.next))
      ensures KeptBelow(old(gl.texParams), gl.texParams, old(gl.next))
    {
      BuildMips(gl, w, h, levels);
      MipLevelsNonEmpty(w, h, levels, 0);
      ghost var built := gl.next;
      AttachTargets(gl, colorFormats, old(gl.live), old(gl.next));
      HalvingChainWiden(mips, w, h, old(gl.next), built, gl.next);
    }

    /**
      The building part of `allocate`, from a released group: the group, then the
      completeness check of the framebuffer bound last.
    */
    method AllocateFresh(gl: Gl, w: nat, h: nat, levels: nat, colorFormats: Option<seq<int>>, complete: set<nat>)
      returns (ok: bool)
      requires gl.Valid() && colors.Length == 8 && colorBufferCount < 8 && w >= 1 && h >= 1
      requires mips == [] && depth == 0 && forall j :: 0 <= j < colorBufferCount ==> colors[j].texture == 0
      requires colorFormats.Some? ==> |colorFormats.value| >= colorBufferCount
      modifies this`mips, this`depth, this`colorTextureTarget, colors
      modifies gl`live, gl`next, gl`texParams, gl`attachments, gl`boundFramebuffer, gl`drawBuffers
      ensures gl.Valid() && old(gl.next) <= gl.next
      ensures |mips| == MipCount(w, h, levels)
      ensures HalvingChain(mips, w, h, old(gl.next), gl.next)
      ensures gl.live == old(gl.live) + Owned()
      ensures forall x :: x in Owned() ==> old(gl.next) <= x.id
      ensures ColorTargets(gl, colorFormats, MinFilterFor(|mips|), old(gl.next))
      ensures hasDepth ==> TargetReady(mips, gl.texParams, gl.attachments, GL_DEPTH_ATTACHMENT, depth, MinFilterFor(|mips|))
      ensures !hasDepth ==> depth == 0
      ensures ok == (mips[|mips| - 1].fbo in complete)
      ensures gl.boundFramebuffer == if ok then 0 else mips[|mips| - 1].fbo
      ensures colorFormats.None? ==> unchanged(this`colorTextureTarget, colors)
      ensures AttachmentsKeptBelow(old(gl.attachments), gl.attachments, old(gl.next))
      ensures KeptBelow(old(gl.drawBuffers), gl.drawBuffers, old(gl.next))
      ensures KeptBelow(old(gl.texParams), gl.texParams, old(gl.next))
    {
      BuildGroup(gl, w, h, levels, colorFormats);
      ok := CheckComplete(gl, complete, mips[|mips| - 1].fbo);
    }

    /**
      Releases the previous group, then builds a `w` x `h` chain of MipCount(w, h, levels)
      levels. `colorFormats` is the optional pointer to one format per color slot; `complete`
      holds the framebuffers the driver reports complete, asked only of the one bound last. A false
      `ok` is the `LGI_REQUIRE` failure, which leaves that framebuffer bound.
    */
    method Allocate(gl: Gl, w: nat, h: nat, levels: nat, colorFormats: Option<seq<int>>, complete: set<nat>)
      returns (ok: bool)
      requires Valid(gl) && w >= 1 && h >= 1
      requires colorFormats.Some? ==> |colorFormats.value| >= colorBufferCount
      modifies this`mips, this`depth, this`colorTextureTarget, colors
      modifies gl`live, gl`next, gl`texParams, gl`attachments, gl`boundFramebuffer, gl`drawBuffers
      ensures Valid(gl)
      // the chain
      ensures |mips| == MipCount(w, h, levels)
      ensures HalvingChain(mips, w, h, old(gl.next), gl.next)
      // no leak: the old group is released and everything held now is new
      ensures gl.live == (old(gl.live) - old(Owned())) + Owned()
      ensures forall x :: x in Owned() ==> x !in old(gl.live)
      // color targets
      ensures colorFormats.Some? ==> colorTextureTarget == GL_TEXTURE_2D
      ensures colorFormats.Some? ==> ColorsReady(gl, colorBufferCount, colorFormats.value, MinFilterFor(|mips|), old(gl.next))
      ensures colorFormats.Some? ==> DrawsTo(gl, DrawBufferList(colorBufferCount))
      ensures colorFormats.None? ==> forall i :: 0 <= i < colorBufferCount ==> colors[i].texture == 0
      ensures colorFormats.None? ==> DrawsTo(gl, [GL_NONE])
      ensures colorFormats.None? ==> colorTextureTarget == old(colorTextureTarget)
      ensures colorFormats.None? ==> forall i :: 0 <= i < colors.Length ==> colors[i].internalFormat == old(colors[i].internalFormat)
      // depth target
      ensures hasDepth ==> TargetReady(mips, gl.texParams, gl.attachments, GL_DEPTH_ATTACHMENT, depth, MinFilterFor(|mips|))
      ensures !hasDepth ==> depth == 0
      // completeness is checked on the last-bound framebuffer only
      ensures ok == (mips[|mips| - 1].fbo in complete)
      ensures gl.boundFramebuffer == if ok then 0 else mips[|mips| - 1].fbo
      // state of other objects: attachments, draw lists and texture parameters of older ids
      ensures AttachmentsKeptBelow(old(gl.attachments), gl.attachments, old(gl.next))
      ensures KeptBelow(old(gl.drawBuffers), gl.drawBuffers, old(gl.next))
      ensures KeptBelow(old(gl.texParams), gl.texParams, old(gl.next))
    {
      Cleanup(gl);
      ok := AllocateFresh(gl, w, h, levels, colorFormats, complete);
    }
  }
}
