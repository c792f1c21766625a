# litespd-gl core, modelled in Dafny

litespd-gl is a thin C++ layer over OpenGL and GLFW. This project models the parts of it
that carry logic of their own:

- the mip-chain framebuffer allocators `SimpleFBO` and `CubeFBO` (their `allocate` and `cleanup`);
- the `RenderContextStack` snapshot stack, and the way the `RenderContext` constructor uses it to bracket context creation;
- the resource wrappers `QueryObject` (a four-state lifecycle), `BufferObject` (length rule, map/unmap flag), `TextureObject` (owned versus attached textures, `attach`, the `allocate*` members, move), `AutoShader` and `SamplerObject` (move-only handle owners), `GpuTimestamps` (reused timestamp queries) and `SimpleUniform::init`;
- `addLineCount`, the numbered shader listing printed on a compile error, and the attach filter of `linkProgram`.

The graphics driver and the window toolkit are replaced by the class `Driver.Gl`:

- Every `glGen*` or `glfwCreateWindow` hands out a fresh non-zero id.
- Every `glDelete*` or `glfwDestroyWindow` retires one.
- The ghost set `live` records the handles that exist.
- `Gl` also records the driver state the allocators promise something about: texture sampling parameters, framebuffer attachments, draw-buffer lists, the bound framebuffer, program attachments, and the thread's current context.

Each owner class has a ghost `Owned()` set. Leak-freedom is stated as
`gl.live == (old(gl.live) - old(Owned())) + Owned()` for re-allocation and as
`gl.live == old(gl.live) - old(Owned())` for `cleanup`.

Answers that come from the driver are parameters of the operation that asks for them:

- framebuffer completeness;
- query availability and value;
- texture queries;
- link status;
- uniform location;
- whether the toolkit manages to create a window.

The model describes a release build, where `LGI_ASSERT` does nothing.
`LGI_THROW` and a failed `LGI_REQUIRE` are modelled as a `Failure` result or `ok == false`.

Modules, one per file:

- `Driver` (driver.dfy)
- `MipChain` (mip_chain.dfy)
- `SimpleFramebuffer` (simple_fbo.dfy)
- `CubeFramebuffer` (cube_fbo.dfy)
- `ContextStack` (context_stack.dfy)
- `RenderContexts` (render_context.dfy)
- `Queries` (query_object.dfy)
- `Buffers` (buffer_object.dfy)
- `Textures` (texture_object.dfy)
- `HandleOwners` (handle_owners.dfy)
- `Timestamps` (timestamps.dfy)
- `Programs` (programs.dfy)
- `ShaderSource` (shader_source.dfy)
- `Wrappers` (wrappers.dfy)

## Model

| member | source | states |
|---|---|---|
| MipChain.ShrPositive | inc/litespd-gl/litespd-gl.cpp:544-548 | `w >> i` is still positive exactly when `i <= floor(log2 w)`. |
| MipChain.MipLoopGuard | inc/litespd-gl/litespd-gl.cpp:544-550 | After `n` iterations, the guard of the 2D level loop still holds exactly when `n < MipCount(w, h, levels)`. So the loop builds `min(floor(log2 w), floor(log2 h)) + 1` levels, capped by a non-zero `levels`. |
| MipChain.CubeMipLoopGuard | inc/litespd-gl/litespd-gl.cpp:664-668 | The same for the cube loop, which halves only the width: it builds `floor(log2 w) + 1` levels, capped by a non-zero `levels`. |
| MipChain.MipLevelsNonEmpty | inc/litespd-gl/litespd-gl.cpp:544-548 | Every level the loop builds is at least one texel in each dimension. |
| MipChain.FullChainEndsAtOne | inc/litespd-gl/litespd-gl.cpp:544-549 | The last level of a full chain is one texel along its shorter dimension. |
| MipChain.MipCountExamples | inc/litespd-gl/litespd-gl.cpp:544-550 | 256×256 gives 9 levels and 256×4 gives 3. Asking 4 levels of 256×256 gives 4; asking 5 of 256×4 gives 3. |
| MipChain.Log2Floor | inc/litespd-gl/litespd-gl.cpp:544-550 | `2^r <= n < 2^(r+1)`: the number of halvings before a dimension reaches 1. |
| Driver.MinFilterFor | inc/litespd-gl/litespd-gl.cpp:552 | The minification filter is `GL_NEAREST` exactly for a chain of at most one level, and `GL_NEAREST_MIPMAP_NEAREST` otherwise. |
| SimpleFramebuffer.DrawBufferList | inc/litespd-gl/litespd-gl.cpp:556-579 | The draw-buffer list has one entry per color slot, and slot `i` draws to `COLOR_ATTACHMENT0 + i`. |
| SimpleFramebuffer.HalvingChainSnoc | inc/litespd-gl/litespd-gl.cpp:545-548 | Appending level `|ms|` (`w >> |ms|` by `h >> |ms|`) with a freshly handed-out framebuffer keeps the chain halving, with increasing, fresh framebuffer ids. |
| SimpleFramebuffer.TargetReadyKept | inc/litespd-gl/litespd-gl.cpp:572-573 | A texture bound at one attachment point of every level stays bound when another point is bound. |
| SimpleFramebuffer.ColorTargetsReadyKept | inc/litespd-gl/litespd-gl.cpp:589-612 | Creating the depth texture and binding it at `DEPTH_ATTACHMENT` keeps every color target as it was: its format, its texture, its parameters and its bindings. |
| SimpleFramebuffer.ColorTargetsReadySnoc | inc/litespd-gl/litespd-gl.cpp:557-576 | The color targets ready so far, plus slot `i` in format `cf[i]` bound at `COLOR_ATTACHMENT0 + i`, are the ready targets below `i + 1`. |
| SimpleFramebuffer.SimpleFBO.constructor | inc/litespd-gl/litespd-gl.h:797-799 | A new object holds no handle and has an empty chain. Its color-slot count is below the array size of 8. |
| SimpleFramebuffer.SimpleFBO.ReleaseColors | inc/litespd-gl/litespd-gl.cpp:521-526 | Every non-zero texture in a slot below `colorBufferCount` is deleted and zeroed. Formats and the slots above are untouched. |
| SimpleFramebuffer.SimpleFBO.ReleaseFbos | inc/litespd-gl/litespd-gl.cpp:528-531 | Every non-zero per-level framebuffer is deleted, and the chain is emptied. |
| SimpleFramebuffer.SimpleFBO.Cleanup | inc/litespd-gl/litespd-gl.cpp:520-532 | Exactly the handles the object owned are deleted (color slots below the count, depth, per-level framebuffers). Afterwards it owns nothing, so a second `cleanup` deletes nothing. |
| SimpleFramebuffer.SimpleFBO.PushLevel | inc/litespd-gl/litespd-gl.cpp:545-546 | The chain grows by one level holding a fresh, live framebuffer. |
| SimpleFramebuffer.SimpleFBO.BuildMips | inc/litespd-gl/litespd-gl.cpp:544-550 | Builds exactly `MipCount(w, h, levels)` levels. Level `l` is `w >> l` by `h >> l`, and each level has its own fresh framebuffer. Exactly those framebuffers become live. |
| SimpleFramebuffer.SimpleFBO.AttachEveryLevel | inc/litespd-gl/litespd-gl.cpp:569-574 | Level `l` of the texture is bound at the given point of level `l`'s framebuffer, for every `l`. Other attachment points are unchanged, and the last level's framebuffer is left bound. Attachments of framebuffers outside the chain are unchanged. |
| SimpleFramebuffer.SimpleFBO.AllocateColor | inc/litespd-gl/litespd-gl.cpp:558-574 | Slot `i` gets a fresh texture and records format `cf[i]`. That texture gets the chain's maximum level and filter and is bound at `COLOR_ATTACHMENT0 + i` of every level. Other slots are unchanged. Texture parameters of older ids, and attachments of framebuffers outside the chain, are unchanged. |
| SimpleFramebuffer.SimpleFBO.AllocateColors | inc/litespd-gl/litespd-gl.cpp:557-576 | Every slot below `colorBufferCount` holds its format and a fresh texture spanning the chain. Only those textures become live, and the slots above are untouched. Texture parameters of older ids, and attachments of framebuffers outside the chain, are unchanged. |
| SimpleFramebuffer.SimpleFBO.ColorStep | inc/litespd-gl/litespd-gl.cpp:557-576 | One pass of the color loop: the ready slots grow from `i` to `i + 1`, and the live set grows by exactly slot `i`'s texture. Texture parameters of older ids, and attachments of framebuffers outside the chain, are unchanged. |
| SimpleFramebuffer.SimpleFBO.SetDrawBuffers | inc/litespd-gl/litespd-gl.cpp:577-586 | Every level's framebuffer draws to the given list, and the last level's framebuffer is left bound. Draw lists of framebuffers outside the chain are unchanged. |
| SimpleFramebuffer.SimpleFBO.AttachColorTargets | inc/litespd-gl/litespd-gl.cpp:554-587 | With formats: the color target is `GL_TEXTURE_2D`, every slot is ready, and every level draws to `COLOR_ATTACHMENT0..n-1`. Without formats: no color texture, and every level draws to `GL_NONE`. Without formats, `colorTextureTarget` and every slot are unchanged. Attachments and draw lists outside the chain, and parameters of older textures, are unchanged. |
| SimpleFramebuffer.SimpleFBO.AllocateDepth | inc/litespd-gl/litespd-gl.cpp:592-612 | A fresh depth texture with the chain's maximum level and filter, bound at `DEPTH_ATTACHMENT` of every level. Attachments of framebuffers outside the chain are unchanged. |
| SimpleFramebuffer.SimpleFBO.DepthStep | inc/litespd-gl/litespd-gl.cpp:589-613 | With `HAS_DEPTH`, adds the depth texture and keeps the color targets ready. Without it, nothing changes. Attachments outside the chain, and parameters of older textures, stay as the color step left them. |
| SimpleFramebuffer.SimpleFBO.CheckComplete | inc/litespd-gl/litespd-gl.cpp:618-620 | `ok` holds exactly when the framebuffer bound last is complete. On success framebuffer 0 is bound; on the `LGI_REQUIRE` failure the bound framebuffer is left. |
| SimpleFramebuffer.SimpleFBO.ColorAndDepth | inc/litespd-gl/litespd-gl.cpp:554-613 | The color step then the depth step: the live set grows by exactly the new color and depth textures, all fresh. Attachments, draw lists and texture parameters of every id below the chain are unchanged. |
| SimpleFramebuffer.SimpleFBO.AttachTargets | inc/litespd-gl/litespd-gl.cpp:552-613 | After the chain: the color and depth targets. Everything added is fresh, and the live set is the old one plus the group. Attachments, draw lists and texture parameters of every id below the chain are unchanged. |
| SimpleFramebuffer.SimpleFBO.BuildGroup | inc/litespd-gl/litespd-gl.cpp:543-613 | From a released object: the chain, its targets and nothing else become live. Attachments, draw lists and texture parameters of every older id are unchanged; without formats the color slots are unchanged. |
| SimpleFramebuffer.SimpleFBO.AllocateFresh | inc/litespd-gl/litespd-gl.cpp:543-620 | The group, then the completeness check on the last level's framebuffer only. Attachments, draw lists and texture parameters of every older id are unchanged. |
| SimpleFramebuffer.SimpleFBO.Allocate | inc/litespd-gl/litespd-gl.cpp:536-621 | Releases the old group first (no leak), then builds `MipCount(w, h, levels)` halving levels of fresh framebuffers. With formats: every slot holds `cf[i]` in a fresh texture spanning the chain, and every level draws to `COLOR_ATTACHMENT0..n-1`; without: no color texture, and every level draws to `GL_NONE`. A depth texture spans the chain exactly when `HAS_DEPTH`. `ok` is the completeness of the last level's framebuffer alone. Without formats, `colorTextureTarget` and every slot's format are unchanged, since that branch only sets draw lists. Attachments, draw lists and texture parameters of every id older than the call, which belong to other objects, are unchanged. |
| CubeFramebuffer.CubeFboHandlesSnoc | inc/litespd-gl/litespd-gl.cpp:665-666 | Appending a level adds exactly the handles of its six framebuffers. |
| CubeFramebuffer.CubeChainSnoc | inc/litespd-gl/litespd-gl.cpp:664-668 | Appending level `|ms|` (`w >> |ms|` wide, six increasing fresh framebuffers) keeps the chain well formed. |
| CubeFramebuffer.CubeFBO.constructor | inc/litespd-gl/litespd-gl.h:863-870 | A new object holds no handle and has an empty chain. |
| CubeFramebuffer.CubeFBO.ReleaseFaces | inc/litespd-gl/litespd-gl.h:879-881 | The non-zero framebuffers of one level are deleted. |
| CubeFramebuffer.CubeFBO.Cleanup | inc/litespd-gl/litespd-gl.h:875-884 | Exactly the color texture, the depth texture and every per-face framebuffer are deleted, and the chain is emptied. |
| CubeFramebuffer.CubeFBO.PushLevel | inc/litespd-gl/litespd-gl.cpp:665-666 | The chain grows by one level of six fresh, increasing framebuffers. |
| CubeFramebuffer.CubeFBO.BuildMips | inc/litespd-gl/litespd-gl.cpp:664-668 | Builds exactly `CubeMipCount(w, levels)` levels. Level `l` is `w >> l` wide and has six fresh framebuffers, which are exactly the ones that become live. |
| CubeFramebuffer.CubeFBO.AttachLevel | inc/litespd-gl/litespd-gl.cpp:685-689 | Face `i` of level `l` of the texture is bound to framebuffer `i` of level `l`. Nothing else changes. In particular, attachments of framebuffers below the chain are unchanged. |
| CubeFramebuffer.CubeFBO.AttachEveryLevel | inc/litespd-gl/litespd-gl.cpp:683-690 | Face `i`, level `l` of the texture is bound at the point of framebuffer `i` of level `l`, for every face and level. Other points, and attachments of framebuffers below the chain, are unchanged. |
| CubeFramebuffer.CubeFBO.DrawNothingAtLevel | inc/litespd-gl/litespd-gl.cpp:694-697 | The six framebuffers of level `l` draw to `GL_NONE`. The others are untouched. Draw lists of framebuffers below the chain are unchanged. |
| CubeFramebuffer.CubeFBO.DrawNothing | inc/litespd-gl/litespd-gl.cpp:691-698 | Every framebuffer of the chain draws to `GL_NONE`. Draw lists of framebuffers below the chain are unchanged. |
| CubeFramebuffer.CubeFBO.AllocateTarget | inc/litespd-gl/litespd-gl.cpp:673-690 | A fresh cube texture with the chain's maximum level and filter, bound at the point of every face of every level. Parameters of older textures, other points, and attachments below the chain are unchanged. |
| CubeFramebuffer.CubeFBO.TargetKept | inc/litespd-gl/litespd-gl.cpp:703-725 | Binding the depth texture keeps the color texture's bindings and parameters. |
| CubeFramebuffer.CubeFBO.AttachColor | inc/litespd-gl/litespd-gl.cpp:672-698 | With a format other than `GL_NONE`: a fresh color cube texture bound at `COLOR_ATTACHMENT0` of every face, and no draw list changes. With `GL_NONE`: no texture, and every framebuffer draws to `GL_NONE`. Attachments, draw lists and parameters of older ids are unchanged. |
| CubeFramebuffer.CubeFBO.AttachTargets | inc/litespd-gl/litespd-gl.cpp:672-725 | A color cube texture only when the format is not `GL_NONE` (otherwise every framebuffer draws to `GL_NONE`), and always a depth cube texture. With a color format no draw list changes. Attachments, draw lists and texture parameters of every id below the chain are unchanged. |
| CubeFramebuffer.CubeFBO.CheckLevel | inc/litespd-gl/litespd-gl.cpp:732-736 | Succeeds exactly when the six framebuffers of the level are complete. Otherwise the first incomplete one stays bound. |
| CubeFramebuffer.CubeFBO.CheckAll | inc/litespd-gl/litespd-gl.cpp:730-740 | Succeeds exactly when every framebuffer of the chain is complete, and then framebuffer 0 is bound. On failure the first incomplete framebuffer of the chain, taken level by level and face by face, is bound (`FirstIncomplete`). |
| CubeFramebuffer.CubeFBO.AllocateFresh | inc/litespd-gl/litespd-gl.cpp:661-740 | From a released object: the chain and its targets, all fresh, and the completeness check. With a color format no draw list changes. Attachments, draw lists and texture parameters of every older id are unchanged. |
| CubeFramebuffer.CubeFBO.Allocate | inc/litespd-gl/litespd-gl.cpp:658-741 | Releases the old group first (no leak), then builds `CubeMipCount(w, levels)` levels of six fresh framebuffers each. Color texture iff the format is not `GL_NONE`; always a depth texture. `ok` holds iff every framebuffer is complete. With a color format no draw list changes. Attachments, draw lists and texture parameters of every id older than the call, which belong to other objects, are unchanged. |
| ContextStack.StepContext | inc/litespd-gl/litespd-gl.cpp:1544-1558 | `push` stores the current context and changes nothing else. `apply` makes the top current and keeps the stack. `pop` makes the top current and drops it. `apply` and `pop` on an empty stack do nothing. |
| ContextStack.RunContextAppend | inc/litespd-gl/litespd-gl.cpp:1544-1558 | Running `a + b` is running `a`, then `b`. |
| ContextStack.NestedKeepsStack | inc/litespd-gl/litespd-gl.cpp:1544-1558 | A well-nested sequence of brackets, context switches and `apply` calls leaves the stack as it found it. |
| ContextStack.BracketRestores | inc/litespd-gl/litespd-gl.cpp:1544-1558 | Nested `push`/`pop` pairs restore in LIFO order. Whatever a well-nested body does, the closing `pop` makes current again the context that was current at the matching `push`, and restores the stack. |
| ContextStack.RenderContextStack.constructor | inc/litespd-gl/litespd-gl.cpp:1560 | A new stack is empty. |
| ContextStack.RenderContextStack.Push | inc/litespd-gl/litespd-gl.cpp:1544-1547 | Equal to `StepContext(_, Push)` on the object's stack and the current context. |
| ContextStack.RenderContextStack.Apply | inc/litespd-gl/litespd-gl.cpp:1549-1551 | Equal to `StepContext(_, Apply)` on the object's stack and the current context. |
| ContextStack.RenderContextStack.Pop | inc/litespd-gl/litespd-gl.cpp:1553-1558 | Equal to `StepContext(_, Pop)` on the object's stack and the current context. |
| ContextStack.RenderContextStack.Destroy | inc/litespd-gl/litespd-gl.cpp:1539-1542 | The stack ends empty. If it was not empty, the current context is the snapshot of the first `push`; otherwise it is unchanged. |
| RenderContexts.RenderContext.Create | inc/litespd-gl/litespd-gl.cpp:1472-1485 | Whether creation succeeds or throws, the caller's current context is current again. It throws "No current GLFW window found." for a shared context with none current, and "Failed to create shared GLFW window." when creation fails. On success exactly one fresh window is live, shared with the caller's context iff `SHARED`. |
| RenderContexts.RenderContext.MakeCurrent | inc/litespd-gl/litespd-gl.cpp:1172-1178 | Makes this window current. A context without a window changes nothing. |
| RenderContexts.RenderContext.ClearCurrent | inc/litespd-gl/litespd-gl.cpp:1180 | No context is current afterwards. |
| RenderContexts.RenderContext.Destroy | inc/litespd-gl/litespd-gl.cpp:1486-1489 | Destroys exactly the window this object holds, if any. |
| Queries.Step | inc/litespd-gl/litespd-gl.h:349-418 | `begin` only moves IDLE→RUNNING, `end` only RUNNING→PENDING, `mark` only IDLE→PENDING; in any other state each does nothing. A poll changes the status only when PENDING with the result available, and then to IDLE. `cleanup` and `allocate` end in IDLE, never EMPTY. |
| Queries.CollectedAtMostIssued | inc/litespd-gl/litespd-gl.h:368-418 | Over any sequence of operations, the results collected plus a query still pending at the end never exceed the queries issued plus one pending at the start. |
| Queries.NeverEmptyAgain | inc/litespd-gl/litespd-gl.h:349-366 | Once out of EMPTY, a query object never returns to EMPTY. |
| Queries.EmptyStaysEmpty | inc/litespd-gl/litespd-gl.h:368-418 | Without `cleanup` or `allocate`, an EMPTY object stays EMPTY and yields no result. |
| Queries.BeginEndPollRound | inc/litespd-gl/litespd-gl.h:368-418 | `begin`, `end` and a successful poll issue one query, collect one result and end IDLE. |
| Queries.QueryObject.constructor | inc/litespd-gl/litespd-gl.h:320-323 | A new object has handle 0 and status EMPTY. |
| Queries.QueryObject.MoveFrom | inc/litespd-gl/litespd-gl.h:329-334 | Takes over the source's handle and status, and leaves the source with handle 0 and status EMPTY. |
| Queries.QueryObject.Cleanup | inc/litespd-gl/litespd-gl.h:349-356 | Deletes a non-zero handle and sets it to 0. The status becomes IDLE, not EMPTY. |
| Queries.QueryObject.Allocate | inc/litespd-gl/litespd-gl.h:358-366 | Releases the old handle, then holds one fresh live handle in status IDLE. |
| Queries.QueryObject.Begin | inc/litespd-gl/litespd-gl.h:368-377 | The status is `Step(old, Begin)`. |
| Queries.QueryObject.End | inc/litespd-gl/litespd-gl.h:379-388 | The status is `Step(old, End)`. |
| Queries.QueryObject.Mark | inc/litespd-gl/litespd-gl.h:390-399 | The status is `Step(old, Mark)`. |
| Queries.QueryObject.GetResult | inc/litespd-gl/litespd-gl.h:401-425 | Returns true iff the status was PENDING and the result available. Then the result is the driver's value and the status IDLE; otherwise the caller's variable and the status are unchanged. |
| Queries.QueryObject.MoveAssignAsWritten | inc/litespd-gl/litespd-gl.h:335-342 | The move assignment as written: it takes over the source's handle and status without releasing its own. A live handle it held is then owned by neither object. |
| Queries.QueryObject.MoveAssign | inc/litespd-gl/litespd-gl.h:335-342 | The move assignment with the destination released first. Self-assignment changes nothing; otherwise exactly the destination's old handle is deleted and the source's moves over. |
| Queries.MoveAssignLeak | inc/litespd-gl/litespd-gl.h:335-342 | Two allocated queries, one move-assigned into the other as written: the first one's handle stays live, held by neither. |
| Buffers.Max | inc/litespd-gl/litespd-gl.h:451 | `std::max`: at least both arguments, and equal to one of them. |
| Buffers.BufferLengthHoldsCount | inc/litespd-gl/litespd-gl.h:446-455 | Unless the `size_t` product wraps, the length holds `count` elements and at least `MIN_GPU_BUFFER_LENGH` of them. It is non-zero when that minimum and the element size are. |
| Buffers.BufferLengthWraps | inc/litespd-gl/litespd-gl.h:451 | The length is computed modulo 2^64, so it can be smaller than what was asked for. |
| Buffers.BufferObject.constructor | inc/litespd-gl/litespd-gl.h:431-439 | A new buffer has handle 0, length 0 and no mapping. |
| Buffers.BufferObject.Cleanup | inc/litespd-gl/litespd-gl.h:457-460 | Deletes a non-zero handle. Handle and length become 0. |
| Buffers.BufferObject.Allocate | inc/litespd-gl/litespd-gl.h:446-455 | Releases the old buffer, then holds one fresh buffer of `max(count, MIN) * sizeof(T)` bytes (in `size_t`). |
| Buffers.BufferObject.MapRange | inc/litespd-gl/litespd-gl.h:496-504 | Maps the given range and records `TARGET` as the mapping. |
| Buffers.BufferObject.Map | inc/litespd-gl/litespd-gl.h:506-509 | Maps `(0, length)`. |
| Buffers.BufferObject.Unmap | inc/litespd-gl/litespd-gl.h:511-517 | Calls the driver iff a mapping is recorded, and clears it. |
| Buffers.MapUnmapUnmap | inc/litespd-gl/litespd-gl.h:496-517 | An `unmap` before any `map`, and a second `unmap` after a pair, do nothing. |
| Textures.U32 | inc/litespd-gl/litespd-gl.cpp:393-396 | A cast to `uint32_t` is the identity on values that fit and always lands below 2^32. |
| Textures.I32 | inc/litespd-gl/litespd-gl.cpp:450 | A cast of a `uint32_t` to `GLint` lands in the 32-bit signed range, and casting back gives the original. |
| Textures.DefaultParams | inc/litespd-gl/litespd-gl.cpp:444-456 | Filter `GL_NEAREST` iff at most one level; maximum level `mips - 1`. |
| Textures.AttachedDesc | inc/litespd-gl/litespd-gl.cpp:350-385 | The descriptor `attach` builds keeps id, target and format. Its depth is 6 for a cube map, the queried depth for 2D-array and 3D textures, and 1 otherwise; its level count is the maximum level plus one. |
| Textures.AttachReadsBackAllocation | inc/litespd-gl/litespd-gl.cpp:350-442 | Attaching to a texture this library allocated reads back exactly the descriptor it was allocated with. |
| Textures.TextureObject.constructor | inc/litespd-gl/litespd-gl.h:705 | A new object is not owned and has the cleared descriptor. |
| Textures.TextureObject.Cleanup | inc/litespd-gl/litespd-gl.h:750-759 | Deletes the texture only when owned and non-zero. Always resets id, target, format and sizes to 0 or `GL_NONE`, and keeps the ownership flag. |
| Textures.TextureObject.Attach | inc/litespd-gl/litespd-gl.cpp:350-385 | Releases what it held, then describes the given texture without owning it. |
| Textures.TextureObject.AllocateAs | inc/litespd-gl/litespd-gl.cpp:389-442 | Releases what it held, then owns one fresh texture with the given descriptor and the default parameters. |
| Textures.TextureObject.Allocate2D | inc/litespd-gl/litespd-gl.cpp:389-404 | Owned, `GL_TEXTURE_2D`, sizes cast to `uint32_t`, depth 1. |
| Textures.TextureObject.Allocate2DArray | inc/litespd-gl/litespd-gl.cpp:408-423 | Owned, `GL_TEXTURE_2D_ARRAY`, depth the layer count. |
| Textures.TextureObject.AllocateCube | inc/litespd-gl/litespd-gl.cpp:427-442 | Owned, `GL_TEXTURE_CUBE_MAP`, height equal to width, depth 6. |
| Textures.TextureObject.MoveFromAsWritten | inc/litespd-gl/litespd-gl.h:694 | The move constructor as written: copies the descriptor and zeroes the source's id. The new object's ownership flag stays `false`, so neither object owns the texture. |
| Textures.TextureObject.MoveFrom | inc/litespd-gl/litespd-gl.h:694 | The move constructor with ownership moved too: the new object owns what the source owned, and the source owns nothing. |
| Textures.TextureObject.MoveAssignAsWritten | inc/litespd-gl/litespd-gl.h:695-702 | The move assignment as written: releases the destination, copies the descriptor, zeroes the source's id, and keeps the destination's own ownership flag. |
| Textures.TextureObject.MoveAssign | inc/litespd-gl/litespd-gl.h:695-702 | The move assignment with ownership moved too. Self-assignment changes nothing; otherwise exactly the destination's owned texture is deleted and the source's moves over. |
| Textures.MoveConstructLeak | inc/litespd-gl/litespd-gl.h:694 | An allocated texture moved with the constructor as written stays live, owned by neither object. |
| Textures.MoveAssignTakesBorrowed | inc/litespd-gl/litespd-gl.h:695-702 | An owning object move-assigned, as written, from one that only attached to texture `t` now claims `t` and would delete it. |
| HandleOwners.AutoShader.constructor | inc/litespd-gl/litespd-gl.h:621 | Takes the given shader (0 for none). |
| HandleOwners.AutoShader.MoveFrom | inc/litespd-gl/litespd-gl.h:631 | Takes the source's shader and leaves it 0. |
| HandleOwners.AutoShader.Cleanup | inc/litespd-gl/litespd-gl.h:624-626 | Deletes a non-zero shader and zeroes it. |
| HandleOwners.AutoShader.MoveAssign | inc/litespd-gl/litespd-gl.h:632-639 | Self-assignment changes nothing. Otherwise exactly the destination's old shader is deleted, the source's moves over, and the source becomes 0. |
| HandleOwners.SamplerObject.constructor | inc/litespd-gl/litespd-gl.h:645-648 | A new sampler object holds 0. |
| HandleOwners.SamplerObject.MoveFrom | inc/litespd-gl/litespd-gl.h:654-657 | Takes the source's sampler and leaves it 0. |
| HandleOwners.SamplerObject.Cleanup | inc/litespd-gl/litespd-gl.h:673-675 | Deletes a non-zero sampler and zeroes it. |
| HandleOwners.SamplerObject.Allocate | inc/litespd-gl/litespd-gl.h:669-672 | Releases the old sampler, then holds a fresh one. |
| HandleOwners.SamplerObject.MoveAssign | inc/litespd-gl/litespd-gl.h:658-665 | Self-assignment changes nothing. Otherwise exactly the destination's old sampler is deleted, the source's moves over, and the source becomes 0. |
| HandleOwners.SamplerMoveReleasesAll | inc/litespd-gl/litespd-gl.h:654-675 | Two samplers, a move-assignment, then both destructors: every handle created is deleted again. |
| Timestamps.MarkStamp | inc/litespd-gl/litespd-gl.h:1300-1306 | An IDLE entry issues its timestamp (`Step(_, Mark)`). Any other entry is polled (`Step(_, Poll)`) and keeps the value it collects. |
| Timestamps.MarkStampAlternates | inc/litespd-gl/litespd-gl.h:1300-1306 | From IDLE, one mark issues and the next collects the value when the driver has it. |
| Timestamps.Marked | inc/litespd-gl/litespd-gl.h:1276-1287 | A new entry named `name`, with a fresh IDLE query, is appended only when `count` has reached the end. Then the entry at `count` is marked; no other entry changes and none is renamed. |
| Timestamps.QueriesOfMarked | inc/litespd-gl/litespd-gl.h:1280-1286 | `mark` adds a query handle only when it appends an entry. |
| Timestamps.GpuTimestamps.constructor | inc/litespd-gl/litespd-gl.h:1257 | No entries, count 0, not started. |
| Timestamps.GpuTimestamps.Mark | inc/litespd-gl/litespd-gl.h:1276-1287 | Outside a frame: does nothing. Inside one: the entries become `Marked(...)` at `count`, `count` grows by one, and `count <= |marks|` is kept. A fresh query handle is created only when appending. Live handles and entries only grow, by the same queries. |
| Timestamps.GpuTimestamps.Start | inc/litespd-gl/litespd-gl.h:1259-1266 | Only outside a frame: starts one, rewinds `count` to 0, and marks "start time" at entry 0. Starting on a non-empty list creates no query. Live handles and entries only grow, by the same queries. |
| Timestamps.GpuTimestamps.Stop | inc/litespd-gl/litespd-gl.h:1268-1274 | Only inside a frame: marks "end time" and ends the frame. When the entry at `count` exists, no query is created. Live handles and entries only grow, by the same queries. |
| Timestamps.DrawFrame | inc/litespd-gl/litespd-gl.h:1259-1287 | One frame of `start`, `mark("draw")`, `stop`: existing entries keep their name and query; missing ones are created in order with the frame's names. On a list of three or more entries no query is created. |
| Timestamps.SecondFrameReuses | inc/litespd-gl/litespd-gl.h:1259-1287 | Two frames from an empty list leave three entries, named "start time", "draw" and "end time". The second frame keeps every entry's query, so the queries created are exactly the three the list holds. |
| Programs.AttachableIffListedNonZero | inc/litespd-gl/litespd-gl.cpp:882-883 | A shader is attached exactly when it is listed and non-zero. |
| Programs.AttachableSnoc | inc/litespd-gl/litespd-gl.cpp:882-883 | Each pass of the attach loop adds the listed shader iff it is non-zero. |
| Programs.LinkProgram | inc/litespd-gl/litespd-gl.cpp:880-895 | Returns non-zero iff linking succeeds. Then the program is fresh and live, was linked from exactly the non-zero listed shaders, and ends with none attached. On failure the program is deleted and 0 returned. |
| Programs.SimpleUniform.constructor | inc/litespd-gl/litespd-gl.h:1116 | Keeps the name; the location starts unknown (-1). |
| Programs.SimpleUniform.Init | inc/litespd-gl/litespd-gl.h:1121-1128 | For a non-zero program the location is the driver's answer; otherwise -1. Returns whether it is non-negative. |
| ShaderSource.Decimal | inc/litespd-gl/litespd-gl.cpp:838 | `%d` of a natural number: non-empty, with no newline. |
| ShaderSource.DigitChar | inc/litespd-gl/litespd-gl.cpp:838 | The character of digit `d` is `'0' + d`. |
| ShaderSource.Format3Shape | inc/litespd-gl/litespd-gl.cpp:838 | `%3d` pads with leading spaces to three characters and never truncates. |
| ShaderSource.LinePrefixShape | inc/litespd-gl/litespd-gl.cpp:834-838 | A line prefix is "(", the padded number, then ") : ". |
| ShaderSource.LinePrefixOneDigit | inc/litespd-gl/litespd-gl.cpp:834 | The prefix of line 1 is `(  1) : `. |
| ShaderSource.LinePrefixTwoDigits | inc/litespd-gl/litespd-gl.cpp:838 | The prefix of line 42 is `( 42) : `. |
| ShaderSource.LinePrefixWide | inc/litespd-gl/litespd-gl.cpp:838 | The prefix of line 1234 is `(1234) : `. |
| ShaderSource.NewlineIndexSpec | inc/litespd-gl/litespd-gl.cpp:836-837 | The first newline's position: a newline (or the end), with none before it. |
| ShaderSource.SplitLinesHaveNoNewline | inc/litespd-gl/litespd-gl.cpp:836-841 | No line of a split contains a newline. |
| ShaderSource.JoinSplitLines | inc/litespd-gl/litespd-gl.cpp:836-841 | Splitting a text at its newlines and joining the lines back gives the text. |
| ShaderSource.Prefixed | inc/litespd-gl/litespd-gl.cpp:832-843 | Line `i` of the listing is the prefix of number `k + i` followed by input line `i`. |
| ShaderSource.NumberedLinesArePrefixed | inc/litespd-gl/litespd-gl.cpp:832-843 | The lines of a numbered listing are the input lines, each behind its own prefix. |
| ShaderSource.ListingLines | inc/litespd-gl/litespd-gl.cpp:832-843 | Line `i` of the listing of a text is `(%3d) : ` of `i + 1`, followed by line `i` of the text. |
| ShaderSource.NumberedStepNewline | inc/litespd-gl/litespd-gl.cpp:837-838 | A newline in the input adds "\n" and the next line's prefix to the listing. |
| ShaderSource.NumberedStepChar | inc/litespd-gl/litespd-gl.cpp:839-840 | Any other character is copied. |
| ShaderSource.AddLineCount | inc/litespd-gl/litespd-gl.cpp:832-843 | The output is the numbered listing of the input's lines: the input lines in order, line `n` prefixed with `(%3d) : ` of `n`. |

## Left out

- All real OpenGL, GLFW, EGL and WGL calls are abstracted by `Driver.Gl`. The EGL and Win32 context variants are compiled out. `glfwInit`, `initGlad`, logging and the debug-output callback are not modelled.
- Texture storage and contents are not modelled: `glTexStorage*`, `glTexImage2D`, `setPixels` and `getBaseLevelPixels`. The cube depth upload at inc/litespd-gl/litespd-gl.cpp:720-721 passes a single comma expression; its arguments are not modelled.
- Error checks of driver calls (`LGI_CHK`, `LGI_DCHK`) are not modelled: the model assumes every call succeeds.
- Driver ids come from one counter for all object kinds. Real namespaces are separate per kind; the model relies only on freshness.
- SimpleFramebuffer.SimpleFBO.Allocate: requires `w, h >= 1`. That is the debug-only assertion at inc/litespd-gl/litespd-gl.cpp:541; in a release build a zero size builds no level and then computes `levels - 1` on an empty chain.
- SimpleFramebuffer.SimpleFBO.Allocate: completeness is an input set, consulted only for the framebuffer bound last, as the code does.
- SimpleFramebuffer.SimpleFBO.constructor: requires `colorBufferCount < 8`. That is the debug-only assertion at inc/litespd-gl/litespd-gl.h:798; a count of 8 would still fit the 8-slot `_colors` array and the 8-entry draw-buffer list at inc/litespd-gl/litespd-gl.cpp:556, but the assertion rejects it; only a count above 8 would overrun them.
- CubeFramebuffer.CubeFBO.Allocate: requires `w >= 1`, the debug-only assertion at inc/litespd-gl/litespd-gl.cpp:661.
- `SimpleFBO` getters, `bind`, `bindColorAsTexture`, `bindDepthAsTexture`, `setColorTextureFilter` and `saveColorToFile`/`saveDepthToFile` are not modelled. They are driver calls or float image code.
- Buffers.BufferObject.Allocate: requires `count` and `sizeof(T)` below 2^64 (they are `size_t`). The pixel pointer and usage hint go to the driver and are not modelled.
- `BufferObject::update`, `bind`, `unbind`, `bindBase` and `getData` are not modelled. They are plain driver calls and change no field.
- Queries.QueryObject.GetResult: covers the `getResult<DEFAULT_VALUE>()` overload as `prior == DEFAULT_VALUE`. The result is an unbounded natural, not a `uint64_t`.
- The missing `return *this` in `QueryObject`'s move assignment (inc/litespd-gl/litespd-gl.h:335-342) is not modelled; the model's move assignment returns nothing.
- Textures.AttachedDesc: the internal format is taken as a non-negative enumerant, while the source reads it as a `GLint`.
- `TextureObject::bind` and `unbind` are not modelled. Of `applyDefaultParameters`, only the maximum level and the minification filter are recorded, as `DefaultParams`; the base level (0), the magnification filter (`GL_NEAREST`) and the wrap modes are not modelled.
- RenderContexts.RenderContext.Create: the `Failure` messages are the bare texts. `LGI_THROW` (inc/litespd-gl/litespd-gl.h:172-179) prefixes each with `__FILE__(__LINE__): ` and logs it; source positions are not modelled.
- Queries.QueryObject.Cleanup: leaves the status IDLE with handle 0, as the source does (inc/litespd-gl/litespd-gl.h:349-356). A later `begin` or `mark` then issues on handle 0, which the driver rejects; driver errors are not modelled.
- `RenderContext`'s move constructor, move assignment and `swapBuffers` are not modelled.
- `GpuTimestamps::print`, `GpuTimeElapsedQuery`, `ns2str`, `ScreenQuad`, `DebugSSBO` and `clearScreen` are not modelled. They are floating-point formatting and drawing.
- ShaderSource.AddLineCount: the line counter is unbounded; the source's `int` counter would overflow past 2^31 - 1 lines.
- `loadShaderFromString` and the link info log are not modelled. The link status is an input.
- `SimpleUniform::apply`, `updateUniformValue`, `SimpleSprite` and `SimpleTextureCopy` are not modelled: they are driver plumbing.
- The dev/ programs and backtrace helpers are not part of this model.

## Findings

| source | as written | input that shows it | evidently intended | confidence | as-written member | corrected member |
|---|---|---|---|---|---|---|
| inc/litespd-gl/litespd-gl.h:335-342 | `QueryObject`'s move assignment overwrites `qo` without deleting the handle the destination held. | Two allocated queries `a`, `b`, then `a = std::move(b)`: `a`'s old query stays alive, held by no object. | Release the destination first, as `AutoShader` and `SamplerObject` do. | not executed | Queries.QueryObject.MoveAssignAsWritten, Queries.MoveAssignLeak | Queries.QueryObject.MoveAssign |
| inc/litespd-gl/litespd-gl.h:694 | `TextureObject`'s move constructor copies `_desc` but not `_owned`, which stays `false`; the source's id is zeroed. | `a.allocate2D(...)`, then `TextureObject b(std::move(a))`: the texture is live, and neither `a` nor `b` deletes it. | Move `_owned` along with the descriptor. | not executed | Textures.TextureObject.MoveFromAsWritten, Textures.MoveConstructLeak | Textures.TextureObject.MoveFrom |
| inc/litespd-gl/litespd-gl.h:695-702 | `TextureObject`'s move assignment copies `_desc` but keeps the destination's own `_owned`. | `a.attach(GL_TEXTURE_2D, t)`, `b.allocate2D(...)`, then `b = std::move(a)`: `b` owns `t`, which it never created, and deletes it on `cleanup`. | Move `_owned` along with the descriptor. | not executed | Textures.TextureObject.MoveAssignAsWritten, Textures.MoveAssignTakesBorrowed | Textures.TextureObject.MoveAssign |
