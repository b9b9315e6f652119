# toyvoxel core, modelled in Dafny

toyvoxel is a small Vulkan voxel renderer. This project models the parts of it that are plain logic rather than GPU work:

- **SDF chain.** A signed distance field is built as a chain of links, each a shape seen through a transform and a combine operator. `SDFChain::dist` folds the links from left to right. `SDFChain::minDist` finds the closest link. (`sdf/sdfchain.cpp`)
- **Combine operators.** Union (`min`), the polynomial smooth union and displacement (`sdf/combineop.h`). `DisplacedSDF` adds a displacement field to a surface (`sdf/displacedsdf.h`).
- **Chunk fill.** `WorldGenerator::generateChunk` fills a 256 × 256 × 2048 voxel grid in three height bands, using Perlin noise (`worldgenerator.cpp`).
- **Bitmap-font mesh builder.** `FontRenderer::addMeshForLabel` and `addMeshForBG` append textured quads for a label or a background rectangle. They use the 16-column glyph atlas, the printable-ASCII test and the atlas background colours (`fontrenderer.cpp`, `fontrenderer.h`).
- **ANSI formatter.** `ANSI::escape` and `ANSI::red` wrap text in an SGR escape sequence (`ansi.cpp`).
- **Input state machine in `main.cpp`.**
  - The in-game `Console`: a 256-character command line behind a `>` prompt, plus command dispatch.
  - The GLFW key and character callbacks that drive the console and the key table. The key table is cleared in `initWindow`; the loop there misses the last cell (see "## Findings"), and the model's `Game` starts from the corrected, fully cleared table.
- **Vulkan selection rules in `main.cpp`.** The memory-type search, the swapchain surface-format and present-mode choices, and the image-count cap.

## How it is modelled

| Dafny | C++ |
|---|---|
| `real` | `float` and `double` |
| `CString.CChar`, a byte-valued `char` | C `char`, taken as signed where its value matters (x86) |
| the prefix before the first NUL (`CString.CStr`) | a C string |
| opaque function parameters | shapes, transforms and `Perlin::perlin` |
| explicit `% 0x1_0000` (`Font.ToU16`) | `uint16_t` index truncation |
| explicit `% 0x1_0000_0000` (`VulkanSelect.ImageCount`) | `uint32_t` wrap-around |
| `bv32` | Vulkan bit masks |

These parts follow the source's form:

- **Imperative code becomes classes and methods.** The mutating code is `Chain.SdfChain`, `WorldGenerator.GenerateChunk`, `Font.FontRenderer`, `App.Console` and `App.Game`. Each is a class or method over arrays and fields, proved against a specification function:
  - `FoldDist` and `IsMinResult` for the chain;
  - `CellValue` for the chunk;
  - `LayoutOf` for the label layout;
  - `EnterStep`, `DeleteStep`, `RunStep`, `KeyStep` and `CharStep` for the input handling.

  The lemmas then state what the source promises about those functions.
- **Pure code becomes functions.** `CombineOp`, `DisplacedSdf`, `Ansi` and the atlas arithmetic of `Font` are functions with lemmas.
- **Loops that return a value become methods with loop invariants.** These are `VulkanSelect.FindMemoryType`, `ChooseSwapSurfaceFormat` and `ChooseSwapPresentMode`.

Inputs that come from outside the modelled code are parameters:

- the `getpos` formatting (`format`), because `snprintf` of floats is not modelled;
- the `setpos` scan (`parse`), because `sscanf` is not modelled. `parse` is an arbitrary function: `None` stands for a scan that did not read three values, but the model does not force any particular text to give `None`. `App.BareSetposInvalid` shows the source's behaviour for a bare `setpos` whenever `parse([])` is `None`, which is what `sscanf`'s EOF on an empty string amounts to;
- the platform byte order, from `platformIsLittleEndian`;
- the per-type property flags of the Vulkan memory properties.

GLFW key codes and actions, and the Vulkan enumerant values, come from the public GLFW 3 and Vulkan headers:

| name | value |
|---|---|
| KEY_LAST | 348 |
| Q | 81 |
| GRAVE_ACCENT | 96 |
| ENTER | 257 |
| BACKSPACE | 259 |
| F1 | 290 |
| RELEASE / PRESS / REPEAT | 0 / 1 / 2 |
| B8G8R8A8_SRGB | 50 |
| SRGB_NONLINEAR | 0 |
| MAILBOX / FIFO | 1 / 2 |
| VK_MAX_MEMORY_TYPES | 32 |

## Model

| member | source | states |
|---|---|---|
| Chain.SdfChain.AddLink | sdf/sdfchain.cpp:39-42 | the chain becomes the old chain with the link appended; earlier links and their order are kept |
| Chain.SdfChain.Dist | sdf/sdfchain.cpp:7-19 | the result is the left fold of the per-link distances: link 0 seeds it, and each later link combines with its own operator; the chain must be non-empty, because `distances[0]` is read unguarded |
| Chain.SdfChain.MinDist | sdf/sdfchain.cpp:21-37 | the result index is in range; its distance is that link's distance, no larger than any link's, and strictly smaller than every earlier link's (ties go to the lowest index); non-empty chain required |
| Chain.FoldDist | sdf/sdfchain.cpp:7-19 | no contract of its own; the specification of `dist`, a left fold that link 0 seeds and each later link extends through its own operator; FoldDistSingle, FoldDistAppend, FoldDistIgnoresFirstOp and FoldDistAllUnion state its properties, and SdfChain.Dist is proved equal to it |
| Chain.IsMinResult | sdf/sdfchain.cpp:21-37 | no contract of its own; the specification of `minDist`: the index is in range, its distance is that link's, no link is closer, and every earlier link is strictly farther; MinResultUnique and MinResultIgnoresOps state its properties, and SdfChain.MinDist meets it |
| Chain.MinResultUnique | sdf/sdfchain.cpp:29-34 | the minDist promise determines the result uniquely |
| Chain.MinResultIgnoresOps | sdf/sdfchain.cpp:21-37 | replacing any link's combine operator does not change which results meet the minDist promise |
| Chain.FoldDistSingle | sdf/sdfchain.cpp:10-13 | a one-link chain's dist is that link's shape at its transformed point |
| Chain.FoldDistIgnoresFirstOp | sdf/sdfchain.cpp:13-16 | the operator of link 0 never affects dist |
| Chain.FoldDistAppend | sdf/sdfchain.cpp:14-16 | dist after appending link L is L's operator applied to the old dist and L's distance |
| Chain.FoldDistAllUnion | sdf/sdfchain.cpp:14-16 | when every link after the first is a Union, dist is at most every link distance and equal to one of them |
| Chain.AllUnionDistIsMinDist | sdf/sdfchain.cpp:7-37 | with only unions after link 0, dist equals the distance minDist reports |
| CombineOp.Min | sdf/combineop.h:14-16 | glm::min is at most both arguments and equal to one of them |
| CombineOp.Clamp | sdf/combineop.h:32 | the clamped value lies in [lo, hi]; it is x inside the range and the nearer bound outside it |
| CombineOp.UnionDist | sdf/combineop.h:14-16 | the union is at most both inputs and equal to one of them |
| CombineOp.UnionCommutative | sdf/combineop.h:14-16 | the union does not depend on operand order |
| CombineOp.SmoothWeight | sdf/combineop.h:32 | the blend weight h lies in [0, 1] |
| CombineOp.SmoothUnionDist | sdf/combineop.h:31-34 | no contract of its own; `SDFSmoothUnion::combinedDist`, mix(s2, s1, h) - k*h*(1-h); SmoothUnionSymmetric, SmoothUnionEqual, SmoothUnionBounds and SmoothUnionOrderedBounds state its properties |
| CombineOp.SmoothWeightSwap | sdf/combineop.h:32 | swapping the operands maps h to 1 - h |
| CombineOp.SmoothUnionSymmetric | sdf/combineop.h:31-34 | the smooth union is symmetric in s1 and s2 |
| CombineOp.SmoothUnionEqual | sdf/combineop.h:32-33 | for equal inputs, h is 1/2 and the result is s - k/4 |
| CombineOp.SmoothUnionBounds | sdf/combineop.h:31-34 | for k > 0 the result lies in [min - k/4, min], and it equals min when the inputs are at least k apart |
| CombineOp.SmoothUnionOrderedBounds | sdf/combineop.h:31-34 | the same bounds for the case s1 <= s2 |
| CombineOp.DisplaceDist | sdf/combineop.h:48 | no contract of its own; `SDFDisplace::combinedDist`, the sum of the two distances; DisplaceBounds states its properties |
| CombineOp.DisplaceBounds | sdf/combineop.h:48 | a zero displacement leaves s1 unchanged; a displacement bounded by a moves s1 by at most a |
| CombineOp.CombinedDist | sdf/combineop.h:8 | no contract of its own; the virtual `combinedDist`, dispatched on the operator's class; CombinedDistDispatch states which function each operator selects |
| CombineOp.CombinedDistDispatch | sdf/combineop.h:14-16 | each operator selects its own formula: min, the smooth blend, or the sum |
| DisplacedSdf.Dist | sdf/displacedsdf.h:14-16 | no contract of its own; `DisplacedSDF::dist`, the surface distance plus the displacement at the same point; DistIsDisplace and DistBounds state its properties |
| DisplacedSdf.DistIsDisplace | sdf/displacedsdf.h:14-16 | the displaced distance is SDFDisplace applied to the surface and displacement, both sampled at the same untransformed point |
| DisplacedSdf.DistBounds | sdf/displacedsdf.h:14-16 | where the displacement is 0 the surface distance is returned; a displacement bounded by a changes the distance by at most a |
| WorldGenerator.CellValue | worldgenerator.cpp:10-19 | no contract of its own; the specification of one cell of `generateChunk` in its three height bands; CellBands, ColumnContiguous and ColumnTop state its properties, and GenerateChunk stores it in every cell |
| WorldGenerator.SurfaceHeight | worldgenerator.cpp:13 | no contract of its own; the height expression, perlin(x/32, y/32, 480/32) * 4 + 480; ColumnTop states that a column above 480 is filled exactly up to its floor |
| WorldGenerator.GenerateChunk | worldgenerator.cpp:3-25 | a fresh 256 × 256 × 2048 chunk in which every cell holds the value of the loop body for its (x, y, z) |
| WorldGenerator.CellBands | worldgenerator.cpp:12-19 | every value is 0 or 1, never the bit-31 encoding of worldgenerator.h:6-10; [424, 480) is solid; below 424 a cell is filled iff perlin(x/32, y/32, z/32) < 0.5; from 480 up iff z <= perlin(x/32, y/32, 15)*4 + 480 |
| WorldGenerator.ColumnContiguous | worldgenerator.cpp:12-16 | from z = 424 up, a filled cell implies every cell between 424 and it is filled |
| WorldGenerator.ColumnTop | worldgenerator.cpp:12-14 | above 480 a column is filled exactly up to its z-independent surface height |
| Font.PrintableRange | fontrenderer.h:10-12 | isPrintableAscii holds exactly for space through tilde |
| Font.IsPrintableAscii | fontrenderer.h:10-12 | no contract of its own; `isPrintableAscii` on the signed char value; PrintableRange states that it holds exactly for space through tilde |
| Font.AtlasCellRoundTrip | fontrenderer.h:90-95 | for a non-negative glyph, column in [0, 16), row >= 0 and column + 16*row == glyph; for a negative glyph, C's truncating / and % give a column in (-16, 0] and a row <= 0 |
| Font.AtlasCellInverse | fontrenderer.h:91-92 | every atlas cell (col, row) comes from the code col + 16*row |
| Font.TexCoordForGlyph | fontrenderer.h:90-95 | no contract of its own; `texCoordForGlyph`, the atlas cell scaled by 1/16; AtlasCellRoundTrip, AtlasCellInverse and PrintableTexCoord state its properties |
| Font.PrintableTexCoord | fontrenderer.h:90-95 | a printable glyph's coordinate is ((code % 16) / 16, (code / 16) / 16), the top-left corner of its cell, with x in [0, 15/16] and y in [2/16, 7/16] |
| Font.BackgroundCells | fontrenderer.h:45-53 | indices 129 and 141 lie in cells (1, 8) and (13, 8), with UVs at the cell centres |
| Font.QuadIndicesPattern | fontrenderer.cpp:28-33 | without uint16 wrap-around, a quad's indices are b, b+1, b+2, b+2, b+3, b, all within [b, b+4) |
| Font.LayoutOf | fontrenderer.cpp:7-36 | no contract of its own; the specification of `addMeshForLabel`'s loop, one LayoutStep per character; LayoutAppendOnly, LayoutIndicesInRange, LayoutPen, LayoutConcat and LayoutOfSnoc state its properties, and FontRenderer.AddMeshForLabel is proved equal to it |
| Font.LayoutAppendOnly | fontrenderer.cpp:11-33 | laying out a label keeps the existing vert and ind prefixes, and adds 4 vertices and 6 indices per character other than '\n' |
| Font.LayoutIndicesInRange | fontrenderer.cpp:19-33 | when the final vertex count fits in uint16, every appended index names a vertex appended by the same call |
| Font.LayoutPen | fontrenderer.cpp:12-15 | the pen ends at origin.x plus one glyph width per character since the last '\n', and origin.y plus one glyph height per '\n' |
| Font.LayoutConcat | fontrenderer.cpp:11-35 | laying out a + b equals laying out b from where a left off |
| Font.LayoutOfSnoc | fontrenderer.cpp:11-35 | one more character is one more loop iteration |
| Font.Advances | fontrenderer.cpp:34 | n repeated additions of w equal n * w |
| Font.FontRenderer.UpdateResolution | fontrenderer.h:65-71 | the screen size, aspect ratio and glyph size in screen units computed from the pixel constants |
| Font.FontRenderer.AddMeshForLabel | fontrenderer.cpp:7-36 | the mesh buffers become those of the layout specification for the label's C string, starting at origin with the old buffers |
| Font.FontRenderer.PushGlyph | fontrenderer.cpp:17-33 | appends the glyph's quad, whose texcoords span its atlas cell, and the six indices from the old vertex count |
| Font.FontRenderer.AddMeshForBG | fontrenderer.cpp:41-55 | appends exactly the four corners min, (max.x, min.y), max and (min.x, max.y), all carrying uv, and the indices b, b+1, b+2, b+2, b+3, b for the prior vertex count b |
| CString.StrLen | main.cpp:191-216 | strlen: no NUL before the result, and a NUL at it unless the buffer ends there |
| CString.CStr | main.cpp:199-216 | the C string is a NUL-free prefix of its buffer, followed by a NUL |
| CString.CStrDrop | main.cpp:201 | `commandBuf + k` is the C string with its first k characters dropped |
| CString.CStrOfTerminated | main.cpp:199 | strcpy'd text followed by a NUL reads back as the text |
| CString.StartsWith | main.cpp:200 | no contract of its own; `strncmp(s, prefix, n) == 0` with n the length of a NUL-free prefix, as the `echo ` test (main.cpp:200) and the `setpos` test (main.cpp:207) use it; EchoRoundTrip, DispatchSetpos and DispatchUnmatched state what follows from it |
| CString.CharCode | fontrenderer.h:10-12 | the signed value of a char, in [-128, 128), congruent to its byte |
| Ansi.NatToDec | ansi.cpp:6 | the decimal digits of a natural number: at least one digit, and no leading zero |
| Ansi.IntToDec | ansi.cpp:6 | `ss << int` contains neither ';' nor 'm' |
| Ansi.NatToDecRoundTrip | ansi.cpp:6 | reading the digits back gives the number |
| Ansi.IntToDecRoundTrip | ansi.cpp:6 | every int round-trips through its decimal form |
| Ansi.IndexOf | ansi.cpp:6 | the first position of a character, or the length when it is absent |
| Ansi.Escape | ansi.cpp:3-8 | no contract of its own; `ANSI::escape`, ESC '[', the modifier, ';', the colour, 'm', the text and ESC "[0m"; EscapeRoundTrip, EscapeInjective and EscapeShape state its properties |
| Ansi.Red | ansi.cpp:10-13 | no contract of its own; `ANSI::red`, escape with modifier 0 and FG_RED; RedLiteral and RedRoundTrip state its properties |
| Ansi.BodyRoundTrip | ansi.cpp:6 | `m;cm` followed by text splits back into m, c and the text |
| Ansi.EscapeRoundTrip | ansi.cpp:3-8 | parsing escape(text, m, c) recovers m, c and the text verbatim, for every int m and c |
| Ansi.EscapeInjective | ansi.cpp:3-8 | different modifier, colour or text give different output |
| Ansi.EscapeShape | ansi.cpp:6 | the output starts with ESC '[' and ends with ESC "[0m"; the text is embedded verbatim right before the reset; the length is \|text\| + \|dec(m)\| + \|dec(c)\| + 8 |
| Ansi.RedLiteral | ansi.cpp:10-13 | red(text) is ESC "[0;31m" + text + ESC "[0m" |
| Ansi.RedRoundTrip | ansi.cpp:10-13 | red(text) parses back to modifier 0, colour FG_RED (31) and the text |
| App.TypedCommand | main.cpp:173-179 | on a line holding only typed characters, the command is exactly the characters between the prompt and the cursor |
| App.InputPendingIff | main.cpp:227 | testing commandBuf[1] is the same as testing for a non-empty command |
| App.ClearedIsEmpty | main.cpp:240-244 | the cleared line is valid, holds the empty command, and has no pending input |
| App.EnterStep | main.cpp:173-179 | no contract of its own; the specification of `enterCharacter`; EnterStepValid, EnterStepAppends and DeleteUndoesEnter state its properties, and Console.EnterCharacter is proved against it |
| App.EnterStepValid | main.cpp:173-179 | enterCharacter keeps the cursor in [1, 254], the prompt, and NULs from the cursor on; with the line full it changes nothing; on a typed line it appends the character |
| App.EnterStepAppends | main.cpp:173-179 | with room left, a non-NUL character is appended to the command |
| App.DeleteStep | main.cpp:181-187 | no contract of its own; the specification of `deleteCharacter`; DeleteStepValid and DeleteUndoesEnter state its properties, and Console.DeleteCharacter is proved against it |
| App.DeleteStepValid | main.cpp:181-187 | deleteCharacter keeps the invariant and never removes the prompt; at cursor 1 it changes nothing; on a typed line it drops the command's last character |
| App.DeleteUndoesEnter | main.cpp:173-187 | deleting right after entering a character restores the line, except for the rendered flag |
| App.SetposArgumentOfTyped | main.cpp:209 | on a typed line, the text setpos scans (commandBuf + 8) is the command from index 7 on |
| App.Dispatch | main.cpp:191-217 | no contract of its own; the specification of `runCommand`'s handler chain; DispatchOutputNulFree, EchoRoundTrip, DispatchQuit, DispatchSetpos, DispatchPositionOnlyBySetpos and DispatchUnmatched state its properties, and Console.Execute is proved against it |
| App.RunStep | main.cpp:189-222 | no contract of its own; the specification of `runCommand`; RunStepValid and BareSetposInvalid state its properties, and Console.RunCommand is proved against it |
| App.DispatchOutputNulFree | main.cpp:191-217 | every command leaves a NUL-free C string as output |
| App.RunStepValid | main.cpp:189-222 | runCommand keeps the invariant; with no input it changes nothing; otherwise it ends with the cleared line, cursor 1, and the text marked not rendered |
| App.BareSetposInvalid | main.cpp:207-214 | a bare `setpos` passes the empty string to the scan; when that scan reads nothing, runCommand writes "Invalid position.", keeps the camera, and clears the line |
| App.EchoRoundTrip | main.cpp:200-201 | `echo <msg>` sets the output to exactly msg and changes nothing else |
| App.DispatchQuit | main.cpp:202-203 | shouldQuit is set exactly by `exit` and `quit` |
| App.DispatchSetpos | main.cpp:207-214 | every command starting with `setpos` (strncmp over 6 characters) moves the camera to the three values read, or else writes "Invalid position." |
| App.DispatchPositionOnlyBySetpos | main.cpp:207-211 | the position changes only through a setpos whose three values were read |
| App.DispatchUnmatched | main.cpp:215-217 | a command matching no handler writes "Invalid command." and changes nothing else |
| App.Console.constructor | main.cpp:163-166 | a new console: disabled, prompt only, cursor 1, empty output |
| App.Console.SetGameInstance | main.cpp:169-171 | the instance pointer is the given Game |
| App.Console.EnterCharacter | main.cpp:173-179 | the console's new state is EnterStep of the old one |
| App.Console.DeleteCharacter | main.cpp:181-187 | the console's new state is DeleteStep of the old one |
| App.Console.RunCommand | main.cpp:189-222 | the console and the Game's world move together to RunStep of their old states |
| App.Console.Execute | main.cpp:191-217 | the output and the Game's world become the dispatch outcome of the command |
| App.Console.Toggle | main.cpp:224 | only `enabled` flips |
| App.Console.HasInput | main.cpp:227 | true exactly when the command is non-empty |
| App.Console.HasOutput | main.cpp:226 | no contract of its own; `hasOutput`, a non-empty output C string, which is `output[0] != '\0'` in the source; Console.ClearOutput makes it false by emptying the output |
| App.Console.SetRenderedText | main.cpp:233 | only the rendered flag is set |
| App.Console.ClearOutput | main.cpp:236-238 | only the output is emptied |
| App.Console.ClearInput | main.cpp:240-244 | the line becomes '>' followed by NULs, with cursor 1 |
| App.PressStep | main.cpp:473-486 | the reaction to a press leaves the key table alone |
| App.KeyStep | main.cpp:469-497 | no contract of its own; the specification of `keyCallback`; KeyStepValid, KeyStepKeys, GraveTogglesConsole, QQuitsOnlyWithoutConsole, FpsCounterOnlyByF1, DisabledConsoleUntouched, IgnoredEvents, Replay and KeysFollowEvents state its properties, and Game.KeyCallback is proved against it |
| App.KeyStepValid | main.cpp:469-497 | every key event keeps the Game's invariant |
| App.KeyStepKeys | main.cpp:471-491 | PRESS sets and RELEASE clears the key's cell, for in-range keys only; everything else leaves the table unchanged |
| App.GraveTogglesConsole | main.cpp:474-475 | grave accent toggles the console whether it is enabled or not, and sets only its key cell besides |
| App.QQuitsOnlyWithoutConsole | main.cpp:476-477 | Q sets shouldQuit exactly when the console is disabled |
| App.FpsCounterOnlyByF1 | main.cpp:484-485 | the FPS counter changes exactly on an F1 press while the console is disabled |
| App.DisabledConsoleUntouched | main.cpp:474-483 | while the console is disabled, no key but grave accent changes it |
| App.IgnoredEvents | main.cpp:471-496 | REPEAT, unknown actions and out-of-range keys change nothing |
| App.Replay | main.cpp:469-497 | any sequence of key events keeps the Game's invariant |
| App.KeysFollowEvents | main.cpp:487-490 | after any events, a key's cell reflects its last PRESS or RELEASE, or else keeps its initial value |
| App.CallbackCharIsLowByte | main.cpp:457-462 | on either byte order, the character taken is the codepoint's low byte |
| App.CharStep | main.cpp:454-467 | no contract of its own; the specification of `charCallback`; CharStepTyped and CallbackCharIsLowByte state its properties, and Game.CharCallback is proved against it |
| App.CallbackChar | main.cpp:459-461 | no contract of its own; the byte charCallback takes through the pointer cast, byte 0 little-endian and byte 3 big-endian; CallbackCharIsLowByte states that this is the codepoint's low byte |
| App.CharStepTyped | main.cpp:454-467 | character input keeps a typed line typed and touches nothing else; it only ever appends a character 32..126 other than '`' equal to codepoint % 256, and only while the console is enabled |
| App.ClearedAsWritten | main.cpp:543-545 | the loop as written clears cells [0, 348) and leaves cell 348 as it was |
| App.ClearKeysAsWritten | main.cpp:543-545 | the array after the loop as written is ClearedAsWritten of its old contents |
| App.StaleKeyAsWritten | main.cpp:543-545 | from an all-set table, GLFW_KEY_LAST reads as held down before any event arrives |
| App.ClearKeys | main.cpp:543-545 | the corrected loop clears every cell, KEY_LAST included |
| App.ClearedKeysFollowEvents | main.cpp:487-490 | from the cleared table, a key reads as held exactly when its last PRESS or RELEASE was a press |
| App.Game.constructor | main.cpp:147-148 | a valid Game: every key cell cleared by the corrected loop (not the loop as written, see "## Left out"), not quitting, camera at (0, 0, 10), console disabled and empty, wired to this Game |
| App.Game.KeyCallback | main.cpp:469-497 | the Game stays valid, and its new state is KeyStep of the old one |
| App.Game.KeyPress | main.cpp:473-486 | the Game's new state is PressStep of the old one |
| App.Game.CharCallback | main.cpp:454-467 | the Game stays valid, and its new state is CharStep of the old one |
| VulkanSelect.FindMemoryType | main.cpp:1707-1722 | Success(i) for the smallest i < memoryTypeCount whose filter bit is set and whose flags contain all the required properties; Failure exactly when there is no such i |
| VulkanSelect.ChooseSwapSurfaceFormat | main.cpp:2719-2731 | the (B8G8R8A8_SRGB, SRGB_NONLINEAR) pair when it is offered, else element 0 of the non-empty list |
| VulkanSelect.ChooseSwapPresentMode | main.cpp:2733-2741 | MAILBOX exactly when it is offered, else FIFO |
| VulkanSelect.ImageCount | main.cpp:2424-2429 | a non-zero maximum caps the count |
| VulkanSelect.ImageCountBounds | main.cpp:2424-2429 | below the top of the uint32 range the count is min + 1, capped by a non-zero max, and never below min when min <= max |
| VulkanSelect.ImageCountWraps | main.cpp:2424 | at minImageCount = 0xFFFFFFFF with no maximum, the uint32 increment wraps to 0 |

## Left out

- Vulkan and GLFW plumbing is not modelled, because it consists of foreign API calls and GPU I/O. This covers instance, device, swapchain and pipeline creation, command recording, frame submission and synchronisation, and the GPU distance pass.
- Camera movement, timing and `mainLoop` are not modelled, because they are floating-point numerics and clocks.
- The SDF primitives, `SDFSineDisplacement`, the transforms of sdf/transformop.h and the stale `SDFSphere` are not modelled. They are floating-point geometry. Shapes and transforms enter the model only as opaque functions.
- `Perlin::perlin` (perlin.h:10) is not modelled. It is an opaque deterministic function parameter.
- sdf/sdfchain.h does not declare `DistResult` or `minDist`, which sdfchain.cpp:21 defines. The model takes DistResult to be the pair `{curDist, curMin}` that minDist returns.
- `float`/`double` rounding is not modelled: reals stand for both.
- Console `getpos`/`setpos` number formatting and parsing use `snprintf`/`sscanf` of floats. They are the `format` and `parse` parameters, so their exact text is not modelled.
- The help text is modelled as the string the `snprintf` call produces. The 4096-byte output buffer and `snprintf`'s truncation are not modelled. Every output the program writes fits in it: the help text, an echo of at most 248 characters (a command holds at most 253), and three `%f` floats. The model's `format` parameter is not bounded, so the model does not state that the getpos text fits.
- `platformIsLittleEndian` inspects memory through a pointer cast. The byte order is a parameter of the Game.
- The `Console::instance` pointer is indeterminate until setGameInstance. The model starts it at `null` and requires it to be set before `runCommand`, which `Game::run` (main.cpp:148) does first.
- The initial contents of `keyPressed` are indeterminate in C++, since `Game app` is a default-initialised local. They are the constructor parameter `initialKeys`, which the corrected clear then overwrites (see the `App.Game.constructor` line below).
- `isPrintableAscii` and `texCoordForGlyph` take C `char` as signed, the x86 convention.
- `1 << i` at i = 31 overflows a signed int. The model uses the bit 0x8000_0000 that common compilers produce.
- The rendering helpers of main.cpp that build the console and FPS meshes are not modelled. They call the modelled font functions with float layout arithmetic.
- `generateChunk(&v, x, y)` at main.cpp:1435-1436 uses a `VoxelChunk(chunks, x, y)` constructor that worldgenerator.h does not declare. The model follows the `worldgenerator.cpp` version.
- Font.FontRenderer.UpdateResolution requires non-zero dimensions. C++ would divide by zero and produce infinities, which have no real-number counterpart.
- Font.LayoutIndicesInRange is stated only when the vertex count fits in uint16. Past 65536 vertices the truncated indices wrap, and the model states nothing about them beyond `Font.ToU16`.
- App.Game.constructor starts the Game from the corrected key table, in which all 349 cells are false. The loop as written at main.cpp:543-545 leaves cell 348 at its indeterminate initial value. That behaviour is modelled separately by `App.ClearKeysAsWritten` and `App.StaleKeyAsWritten`, and the Game does not reproduce it.
- CombineOp.SmoothUnionDist excludes a zero smoothing amount: the type `NonZeroReal` makes `SDFSmoothUnion(0.0f)` inexpressible, though the constructor at combineop.h:26-28 accepts it. In float arithmetic `(s2-s1)/0` is an infinity, so h clamps to 0 or 1 and the result is the hard union, or NaN when s1 == s2; neither infinities nor NaN have a real-number counterpart. The same holds for CombineOp.SmoothWeight.
- Chain.SdfChain.MinDist does not model the `int curMin` truncation of the `size_t` index. A chain of 2^31 links or more is out of scope.

## Findings

| source | as written | input that shows it | evidently intended | confidence | as-written member | corrected member |
|---|---|---|---|---|---|---|
| main.cpp:543-545 | `for (int i = 0; i < GLFW_KEY_LAST; i++) keyPressed[i] = false;` clears cells 0..347 of the 349-cell table `keyPressed[GLFW_KEY_LAST+1]` (main.cpp:367) | `Game app` is a default-initialised local (main.cpp:3106), so cell 348 (GLFW_KEY_LAST, the Menu key) keeps whatever the stack held; with that byte non-zero the key reads as held down before any event | clear every cell, `i <= GLFW_KEY_LAST` | medium, not executed; nothing in main.cpp reads cell 348 (only W, S, A, D and LEFT_SHIFT are read, main.cpp:2895-2903), so the effect is latent | App.ClearKeysAsWritten, App.StaleKeyAsWritten | App.ClearKeys, App.ClearedKeysFollowEvents |
