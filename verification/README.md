# lwcgl bookkeeping, modelled in Dafny

lwcgl is a small OpenGL game engine that exists in several overlapping versions.

- **The current engine.** It is a scripted runtime, `src/game.cpp`. A script host calls into it to:
  - load sprite, font and shader registries from CSV manifests;
  - select handles;
  - queue textured quads into one vertex/index batch;
  - measure and draw text;
  - read keyboard and mouse edges.
- **Older engine pieces.** They live beside the runtime:
  - `src/game.h`: a `key = value` config reader, a double-buffered input class and a state-switching loop;
  - `input.h`: global input arrays;
  - `sprite.h`: an auto-flushing quad batcher;
  - `src/graphics/sprite.h`: a batcher without a capacity check;
  - `mesh.h`: an OBJ loader;
  - `src/graphics/mesh.h`: a mesh builder;
  - `world.h`: a tile grid;
  - `src/definitions.h` and `funcs.h`: string helpers.
- **The graphics managers** in `src/graphics`:
  - a shader preprocessor;
  - a vertex-attribute file reader;
  - the font-character reader;
  - name-keyed caches.
- **Two tools** that write the manifests the runtime reads:
  - `packfont` writes a 128-row spritefont CSV;
  - `spritesheet_xml2csv.py` writes `name,x,y,width,height` rows.

The model keeps the engine's bookkeeping and treats every GPU, window, audio and interpreter call as an opaque event or a parameter:

- **Immutable values.** The engine's records (`Vertex`, `FontChar`, `SpriteFont`, `SpriteSheet`, the batches, the input snapshots, the game state) are immutable datatypes. Each operation is a function or a method from the old value to the new one.
- **Numbers.** Coordinates and parsed numbers are integers in the scripted runtime (module `Tge` and the modules built on it). They are reals in the older sprite, mesh and world code (module `Vectors`). The source's 16-bit index truncation and 32-bit handle casts are written out.
- **Files.** A file's contents are a parameter: an `Option<string>` when the file may be missing, and a map from path to contents for the shader preprocessor.
- **Driver objects.** Textures and programs handed out by the driver are parameters.
- **Script hooks.** Each hook is a success/failure flag.
- **Random choices.** They are a sequence of steps in {-1, 0, 1}.

One module per source component, in one file each:

- `Text`, `Numbers` and `Wrappers`: `std::string::find`, decimal printing and parsing, `Option`/`Result`.
- `Definitions`: `split`, `strip` and `min`/`max` of `src/definitions.h` and `funcs.h`.
- `Csv`, `Registries`, `QuadBatch`, `Runtime` and `Bridge`: the manifest reader, registries, batch, text layout and script bindings of `src/game.cpp`.
- `Input`, `Lifecycle` and `GameLoop`: edge detection, the script-host lifecycle and the `src/game.h` state loop.
- `Settings`: the `Config` class of `src/game.h`.
- `LegacySprite` and `SpriteBatch`: the two fixed-capacity batchers.
- `MeshBuilding` and `ObjLoading`: the two mesh components.
- `ShaderSources` and `Textures`: the graphics managers.
- `TileWorld`: the tile world.
- `PackFont` and `Xml2Csv`: the two tools.
- `Filter`: the list filter of `src/main.cpp`.

## Model

| member | source | states |
|---|---|---|
| Filter.Kept | src/main.cpp:27-41 | the filtered list is never longer than the input |
| Filter.FilterInPlace | src/main.cpp:27-41 | walking the vector with erase/advance leaves exactly the accepted elements in order, and calls the predicate once per original element, front to back |
| Filter.KeptMembers | src/main.cpp:27-41 | an element survives exactly when it was in the list and the predicate accepts it |
| Filter.KeptCounts | src/main.cpp:27-41 | every copy of an accepted element is kept and no copy of a rejected one, so the result is the accepted sub-multiset |
| Filter.KeptInOrder | src/main.cpp:30-40 | the kept elements appear in their original relative order (the result is a subsequence of the input) |
| Filter.KeptIdempotent | src/main.cpp:27-41 | filtering a second time with the same predicate changes nothing |
| Filter.KeptAppend | src/main.cpp:27-41 | filtering a concatenation filters each part independently |
| Filter.KeptStep | src/main.cpp:32-40 | visiting one more element appends it to the result exactly when the predicate accepts it |
| Definitions.Split | src/definitions.h:52-73 | `split` always produces at least one token |
| Definitions.SplitLoop | src/definitions.h:52-73 | the loop as written (with `npos` seen as -1 through an `int`) yields exactly the token list of `Split` |
| Definitions.SplitStep | src/definitions.h:56-72 | one pass of the loop keeps the pushed tokens followed by the split of the rest equal to the split of the whole string, and makes progress |
| Definitions.SplitNone | src/definitions.h:52-73 | a string without the delimiter splits into exactly itself |
| Definitions.SplitTokens | src/definitions.h:58-70 | no token contains the delimiter, and every token but the last is non-empty |
| Definitions.SplitJoin | src/definitions.h:52-73 | concatenating the tokens gives the input with every delimiter removed |
| Definitions.SplitTrailingDelimiter | src/definitions.h:64-71 | a delimiter at the very end yields a final empty token |
| Definitions.SplitFirst | src/definitions.h:55-65 | splitting pushes the non-empty piece before the first delimiter, then splits what follows it |
| Definitions.SplitAt | funcs.h:20-41 | the same step taken from any position: the piece up to the next delimiter, if non-empty, then the split after it (the `split` of funcs.h is the same code) |
| Definitions.SplitAdvance | funcs.h:24-40 | one loop pass preserves "pushed tokens + split of the rest = split of the whole" |
| Definitions.FirstNotSpace | src/definitions.h:78 | the index found is the first non-white-space character at or after the start, and there is none exactly when the result is absent |
| Definitions.LastNotSpace | src/definitions.h:84 | the index found is the last non-white-space character below the bound, and there is none exactly when the result is absent |
| Definitions.Strip | src/definitions.h:75-88 | `strip` is empty exactly when the input is all " \r\n\t", and otherwise starts and ends with a non-white-space character |
| Definitions.StripIsInfix | src/definitions.h:75-88 | the result is a contiguous piece of the input with only white space before and after it |
| Definitions.StripTrimmed | src/definitions.h:75-88 | a string with no white space at either end is returned unchanged |
| Definitions.StripIdempotent | src/definitions.h:75-88 | stripping twice is the same as stripping once |
| Definitions.Min | src/definitions.h:17 | `min` is one of its arguments and no larger than either |
| Definitions.MaxAsWrittenIsMin | src/definitions.h:18 | the `max` macro as written is the same expression as `min`, so `max(1, 2)` is 1 |
| Definitions.Max | src/definitions.h:18 | the intended `max` is one of its arguments and no smaller than either |
| Numbers.ShowNatValue | src/game.cpp:16-23 | printed decimal digits read back to the number printed |
| Numbers.FromChars_ShowInt | src/game.cpp:16-23 | `from_chars` (and so `stof_safe`) reading a printed integer gives that integer back |
| Numbers.DigitRun | src/game.cpp:16-23 | the digit run a parser consumes is all digits and stops at the first non-digit |
| Csv.NextCell | src/game.cpp:512-520 | the cell holds no comma; with a comma in the line, cell + "," + rest is the old line; without one the cell is the whole line and the rest is empty |
| Csv.LoadCsv | src/game.cpp:522-554 | an unreadable file returns 1 and calls the callback on nothing; otherwise it returns 0 and hands over the '\n'-separated lines in order, stopping at the first empty line and leaving out line 0 when the header is skipped |
| Csv.LinesShape | src/game.cpp:532-546 | every visited line is non-empty and break-free, and the visited lines joined with '\n' are a prefix of the file |
| Csv.LinesOfJoin | src/game.cpp:532-546 | a file of non-empty, break-free lines joined by '\n' is visited line for line (a read-back round trip) |
| Csv.LinesOfTerminated | src/game.cpp:532-546 | the same round trip for a file written one line per '\n'-terminated line |
| Csv.LinesStep | src/game.cpp:532-546 | the first visited line is the text before the first break, followed by the lines after it |
| Csv.VisitLines | src/game.cpp:532-546 | the loop's hand-over from any line start equals the remaining lines, less the header when it is still to be skipped |
| Csv.EolSpec | src/game.cpp:533-536 | a line ends at the next '\n' or at the end of the data, and holds no break |
| Csv.FindEol | src/game.cpp:533-536 | `find('\n', sol)` with `npos` read as the end of the data gives that line end |
| Settings.Entry | src/game.h:24-33 | a line defines an entry exactly when it contains '=' |
| Settings.EntrySplit | src/game.h:26-31 | the key is the stripped text before the first '=' and the value the stripped text after it, so a value may contain '=' |
| Settings.EntryTrimmed | src/game.h:26-31 | neither key nor value keeps surrounding white space, and the key holds no '=' |
| Settings.Get | src/game.h:39-43 | `get` returns the stored value when the key exists and the caller's default otherwise |
| Settings.ReadKeys | src/game.h:17-37 | a key is present exactly when some line defines it |
| Settings.ReadSnoc | src/game.h:17-37 | reading one more line sets only the key that line defines |
| Settings.ReadLastWins | src/game.h:35 | a key's value comes from the last line that defines it |
| Settings.ReadThenGet | src/game.h:17-43 | `get` after reading a file returns the last definition of the key, or the default when no line defines it |
| Settings.SkipsPlainLines | src/game.h:26-28 | a line without '=' leaves the settings unchanged |
| Registries.Cells | src/game.cpp:559-564 | `n` calls of `next_cell` yield exactly `n` cells, none holding a comma |
| Registries.CellsOfJoin | src/game.cpp:559-564 | comma-free fields joined by commas are read back one by one, in order (the round trip between the manifest writers and the readers) |
| Registries.SpriteEntries | src/game.cpp:559-568 | one (name, sprite) entry per manifest row, in row order |
| Registries.StoreSnoc | src/game.cpp:565-568 | storing the rows applies them in order, the last one stored last |
| Registries.StoreKeys | src/game.cpp:565-568 | a loaded sheet holds exactly the names of its rows |
| Registries.StoreLastWins | src/game.cpp:565-568 | a row whose name no later row repeats determines that sprite, so a later row with the same name replaces an earlier one |
| Registries.ReadFontRows | src/game.cpp:582-595 | one glyph row is read per manifest line |
| Registries.ApplyFontRow | src/game.cpp:583-594 | a font row replaces exactly the glyph its code names, leaves the other 127 alone, and makes the line height the larger of the old height and the glyph's height |
| Registries.ApplyFontRows | src/game.cpp:582-595 | reading rows never lowers the line height and keeps 128 glyphs |
| Registries.ApplyFontRowsNumbered | src/game.cpp:582-595 | rows numbered 0, 1, 2, … fill the glyphs of the same numbers from their own rows and leave the rest as they were |
| Registries.ApplyFontRowsHeight | src/game.cpp:594 | the line height is at least the height of every glyph read |
| Registries.BlankGlyphs | src/game.cpp:581 | a new font starts with 128 value-initialised glyphs |
| Registries.FontGlyphs | src/game.cpp:578-602 | a loaded font has 128 glyphs and a non-negative line height, whether or not its manifest exists |
| Registries.LoadSprite | src/game.cpp:556-576 | `load_sprite` appends exactly one sheet, returns the previous length as the handle, keeps every earlier sheet and the other registries, even for a repeated name or a missing manifest |
| Registries.LoadFont | src/game.cpp:578-602 | `load_font` appends exactly one valid font with the given texture and returns the previous length; nothing else changes |
| Registries.LoadShader | src/game.cpp:604-609 | `load_shader` appends the built program and returns the previous length; nothing else changes |
| Registries.LoadSpriteTwice | src/game.cpp:556-576 | two loads hand out consecutive handles, and the second does not disturb what the first handle names |
| QuadBatch.U16 | src/game.cpp:881-885 | the `uint16_t` cast lands in 0..65535 and keeps values already in range |
| QuadBatch.DrawSpritePart | src/game.cpp:855-893 | `draw_sprite_part` appends exactly 4 vertices and 6 indices, keeps what was queued, gives all 4 the colour, and gives them the 16-bit texcoords (tp.x,tp.y), (tmax.x,tp.y), (tp.x,tmax.y), (tmax.x,tmax.y) |
| QuadBatch.Pattern | src/game.cpp:887-892 | the indices of `n` quads are 6n entries |
| QuadBatch.DrawIndices | src/game.cpp:881-892 | on a batch of whole quads the new indices are b, b+1, b+2, b+1, b+3, b+2 with b the previous vertex count, continuing the pattern |
| QuadBatch.DrawColors | src/game.cpp:882-885 | every quad's four vertices keep sharing one colour |
| QuadBatch.DrawQueued | src/game.cpp:855-893 | `draw_sprite_part` appends the four vertices of the placed rectangle with texels from `tex_pos` to `tex_pos + tex_size` as 16-bit values and one colour, then the triangles (b, b+1, b+2) and (b+1, b+3, b+2) over them, and changes nothing already queued |
| QuadBatch.DrawKeepsWellFormed | src/game.cpp:855-893 | drawing keeps the batch made of whole quads with their own index pattern and one colour per quad |
| QuadBatch.PatternInRange | src/game.cpp:881-892 | while 4n fits in 16 bits, every index of n quads names a vertex below 4n |
| QuadBatch.IndicesInRange | src/game.cpp:881-892 | in a well-formed batch of at most 65536 vertices, there are 6 indices per 4 vertices and every index is below the vertex count |
| QuadBatch.Flush | src/game.cpp:825-839 | `flush_batch` does nothing without indices; otherwise it issues one draw of the whole batch and empties both arrays |
| QuadBatch.FlushIdempotent | src/game.cpp:825-839 | a second flush right after the first is a no-op |
| QuadBatch.FlushEmpties | src/game.cpp:837-838 | a flushed batch has no indices and is still well formed |
| Bridge.HandleArg | src/game.cpp:363-365 | a script `null` handle becomes -1 as a `uint32_t`, that is 0xffffffff; a number is cast to `uint32_t` |
| Bridge.ColorArg | src/game.cpp:394-439 | a drawing call that omits its colour argument gets 0xffffffff, otherwise the given number cast to `uint32_t` |
| Bridge.NullSelectsDefault | src/game.cpp:363-365 | `set_sprite(null)` and `set_font(null)` select the default sheet and font |
| Bridge.NullSelectsDefaultShader | src/game.cpp:363 | `set_shader(null)` selects the default program |
| Bridge.CallDrawSprite | src/game.cpp:401-406 | script `draw_sprite` queues one quad whose colour is the third argument if given and opaque white otherwise |
| Bridge.CallDrawSpritePart | src/game.cpp:418-427 | script `draw_sprite_part` queues one quad with the optional seventh-argument colour and the texture rectangle of arguments 3-6 |
| Runtime.FlushGame | src/game.cpp:825-839 | flushing the game's batch empties the indices and changes nothing but the batch and the issued draws |
| Runtime.SetSprite | src/game.cpp:700-705 | `set_sprite` flushes first, leaves text mode, selects the handle when it names a loaded sheet and the default sheet otherwise, binds that sheet's texture and changes nothing else |
| Runtime.SetFont | src/game.cpp:707-712 | `set_font` flushes first, enters text mode, selects the handle when it names a loaded font and the default font otherwise, binds that font's texture and changes nothing else |
| Runtime.SetShader | src/game.cpp:713-719 | `set_shader` flushes, uses the program of the handle (the default program for 0xffffffff) and rebinds the texture of the current font or sheet, depending on text mode |
| Runtime.SetSpriteTwice | src/game.cpp:700-705 | selecting the same sprite twice is the same as selecting it once |
| Runtime.BeginFrame | src/game.cpp:680-697 | a new frame leaves text mode with an empty batch, the default program and the default sheet, and keeps the registries |
| Runtime.EndFrame | src/game.cpp:778-783 | the end of a frame draws whatever is still queued |
| Runtime.DrawSprite | src/game.cpp:848-853 | `draw_sprite` appends exactly one quad: four vertices in the given colour with texels (0,0), (width,0), (0,height) and (width,height) of the current sheet's texture, then the six indices of its two triangles; earlier vertices and indices are kept, a well-formed batch stays well formed, and nothing but the batch changes |
| Runtime.DrawSpriteSheet | src/game.cpp:841-846 | an unknown name changes nothing; a known one appends exactly one quad textured from the sprite's `pos` to `pos + size`, in the given colour, with its six indices, keeping earlier entries and batch well-formedness, and nothing but the batch changes |
| Runtime.MeasureCursorY | src/game.cpp:904-906 | the cursor of `measure_text` has moved down one line height per line break |
| Runtime.MeasureText | src/game.cpp:895-914 | `measure_text` returns height (line breaks + 1) × line height, and as width the maximum x the cursor reaches over all prefixes (x restarts at 0 on '\n', a tab counts four space advances, chars outside 0..127 are ignored), attained at some prefix |
| Runtime.Glyphs | src/game.cpp:919-936 | `draw_text` places at most one glyph per character |
| Runtime.GlyphsCount | src/game.cpp:919-936 | exactly the non-white-space ASCII characters are drawn as glyphs |
| Runtime.DrawGlyphsSize | src/game.cpp:934 | every glyph adds one quad of four vertices and six indices and keeps the batch well formed |
| Runtime.DrawTextStep | src/game.cpp:919-936 | one character moves the pen by the rules of `draw_text` and adds a glyph quad at the pen position exactly when it is a glyph |
| Runtime.DrawText | src/game.cpp:916-938 | `draw_text` queues one quad per glyph, in order, each at the pen position the characters before it lead to (space: space advance, tab: four of them, '\n': back to pos.x one line down, glyph: its own advance), and changes nothing but the batch |
| Runtime.DrawTextSize | src/game.cpp:916-938 | `draw_text` adds four vertices per glyph character and keeps the batch well formed |
| Input.EdgesExclusive | src/game.h:60-65 | pressed is new ∧ ¬old and released is old ∧ ¬new, so a button is never both; a pressed button is down, a released one is not, and the state changed exactly when one of the two holds |
| Input.Latch | input.h:73-81 | copying the new state into the old keeps every button's down state and clears every edge |
| Input.OnAction | input.h:62-72 | a callback sets the button on press, clears it on release, leaves everything alone on any other action, and never touches another button or the old copy |
| Input.PressAfterLatch | src/game.h:150-163 | right after an update a press is reported as pressed exactly when the button was up, and a release as released exactly when it was down |
| Input.Fresh | src/game.h:50-53 | the zero-initialised arrays report nothing down and nothing released |
| Input.Update | src/game.h:69-77 | `Input::update` copies the new keys, mouse buttons, mouse position and scroll into the old copies |
| Input.UpdateButtons | src/game.cpp:785-795 | `update_input` copies only the key and mouse-button arrays and leaves the rest of the input state alone |
| Input.QuietAfterUpdate | input.h:73-81 | with no event after an update, no key or mouse query reports pressed or released and the mouse has not moved |
| Input.OnKey | src/game.h:150-156 | the key callback, for a code that has a slot, updates only the new key array, by the press/release rule |
| Input.UnknownKeyOutOfRange | src/game.h:150-156 | the code -1 that GLFW reports for an unnamed key has no slot in any key array, so the unchecked write lands before the array |
| Input.OnKeyChecked | src/game.h:150-156 | the corrected callback handles a code with a slot as the source does and ignores any other code |
| Input.UnknownKeyIgnored | src/game.h:150-156 | with the check, an unnamed key leaves every key's down state and pressed edge as it was |
| Input.OnMouseButton | src/game.h:157-163 | the mouse-button callback updates only the new mouse array, by the press/release rule |
| Input.OnCursor | src/game.h:164-170 | the cursor callback stores the position as reported and changes nothing else |
| Input.OnCursorFlipped | input.h:49-55 | `onGlfwMouseMove` stores x unchanged and y as window height − ypos |
| Input.OnScroll | input.h:56-60 | the scroll callback stores the offsets and changes nothing else |
| Input.LastCodesOutOfRange | input.h:4-7 | arrays sized `GLFW_KEY_LAST` and `GLFW_MOUSE_BUTTON_LAST` have no slot for the Menu key (348) or mouse button 8 (7) |
| Input.FreshAsWritten | input.h:4-7 | the arrays as declared hold `GLFW_KEY_LAST` keys and `GLFW_MOUSE_BUTTON_LAST` buttons, one fewer than the codes GLFW reports |
| Input.FreshSized | input.h:4-7 | the corrected sizes that the declarations here and at src/game.h:50-53 evidently intend, one past the last code, give a slot to every key and button GLFW reports |
| Input.ScriptKeyPressed | src/game.cpp:349 | the script's `key_pressed` casts its number to `uint32_t` and is true exactly when that key is down now and was up at the last update; a code in 32-bit range queries that very key |
| Input.ScriptSeesPress | src/game.cpp:100-104 | after an update and a press event, the script sees the key as pressed exactly when it was up before |
| Lifecycle.StartAll | src/game.cpp:497-503 | starting a list of subsystems records one start per subsystem, in list order |
| Lifecycle.StopAll | src/game.cpp:504-510 | stopping a list of subsystems records one stop per subsystem, in list order |
| Lifecycle.CleanupMirrorsInit | src/game.cpp:497-510 | `cleanup` stops the subsystems in exactly the reverse order in which `init` starts them: the k-th stopped is the k-th last started |
| Lifecycle.ReloadMirrorsInit | src/game.cpp:646-656 | the F1 reload stops everything but the window in cleanup order and restarts it in init order, the script last |
| Lifecycle.LiveAppend | src/game.cpp:633-674 | whether a script host exists after two runs of events is decided by the second run from the state the first one left |
| Lifecycle.SafeAppend | src/game.cpp:633-674 | running two safe sequences of events one after the other stays safe: no hook without a host, every failing hook followed by the host's disposal |
| Lifecycle.CallHookSafe | src/game.cpp:25-33 | `safe_call` records the hook with its outcome (false exactly when it throws); the host survives exactly when the hook succeeds, because a failure deletes and nulls it |
| Lifecycle.GuardedHook | src/game.cpp:634-637 | a hook is attempted only when there is a host (nothing happens otherwise), and the host survives exactly when it existed and the hook succeeded |
| Lifecycle.InitScriptSafe | src/game.cpp:178-453 | `init_script` creates the host, and leaves it null exactly when its setup throws (lines 449-452) |
| Lifecycle.InertKeepsLive | src/game.cpp:640-666 | frame and window events that call no hook leave the host as it was |
| Lifecycle.ReloadSafe | src/game.cpp:646-656 | the F1 reload leaves a host exactly when the new script's setup succeeds, stopping the old one first |
| Lifecycle.RunFrameSafe | src/game.cpp:640-666 | one loop pass calls `on_frame` only with a host and leaves one exactly when (after any reload) there was one and `on_frame` succeeded |
| Lifecycle.Run | src/game.cpp:633-674 | across `on_init`, every frame and `on_exit` no hook runs without a host and every failing hook discards the host; if there is a host, `on_init` fails and no reload happens, there is no host at the end |
| Lifecycle.RunGame | src/game.cpp:10-14 | `run_game` starts window, graphics, sound, input and script in that order, ends with cleanup in the reverse order, and between them never calls a hook without a host |
| GameLoop.SetState | src/game.h:280-288 | `setState` appends exactly four calls (close and delete the old state, attach and init the new one) and makes the new state current |
| GameLoop.Exit | src/game.h:263-278 | `exit` and `exitGame` only set `shouldExit` |
| GameLoop.SetStateSound | src/game.h:280-288 | switching to a never-used state leaves the old one deleted, the new one the single live state, every other state untouched, and the call trace legal |
| GameLoop.PhaseSnoc | src/game.h:280-311 | a call on one state never changes another's phase, and a trace stays legal exactly when each call is allowed in the phase its state is in |
| GameLoop.QuietStep | src/game.h:235-249 | polling, updating, rendering and presenting keep exactly one state live and change no phase |
| GameLoop.FrameSound | src/game.h:300-306 | a loop pass keeps exactly one state live; it sets `shouldExit` exactly when the state asked to exit and switches the current state exactly when the state switched |
| GameLoop.Passes | src/game.h:300-306 | the loop makes at most one pass per reported frame |
| GameLoop.StartSound | src/game.h:294-295 | attaching and initialising the first state makes it the one live state |
| GameLoop.CloseSound | src/game.h:250-261 | `close` closes and deletes the live state, leaving only unborn and deleted states |
| GameLoop.Run | src/game.h:290-311 | `run` returns 1 at once when `init` returns zero; otherwise it loops until the window closes or an exit is asked, returns 0, keeps the call trace legal, and ends with the current state closed and deleted so no state is left live |
| LegacySprite.Create | sprite.h:98-123 | `create` clamps the capacity to at most 10000 quads (keeping smaller requests) and starts with no quads and nothing drawn |
| LegacySprite.IndicesFit | sprite.h:100 | with the clamp, every index 4q+{0,1,2,1,3,2} of a slot fits in an unsigned short, so the stored indices are the intended ones |
| LegacySprite.Begin | sprite.h:159-166 | `begin` resets the quad count to 0, records program, texture, view and projection, and leaves the arrays alone |
| LegacySprite.End | sprite.h:247-269 | `end` issues one draw with the recorded state of exactly the first `numQuads` quads' vertices and indices, and changes nothing else |
| LegacySprite.Write | sprite.h:183-196 | the copies of `addQuad` put indices 4q+{0,1,2,1,3,2} at slots 6q..6q+5, the four positions and one colour four times at 4q..4q+3, and texcoords texpos, texpos+(w,0), texpos+(0,h), texpos+texsize; every other entry is unchanged |
| LegacySprite.Store | sprite.h:192-202 | after the copies, a batch that reaches `maxQuads`−1 quads is drawn and begun again with the same state, so the count stays below `maxQuads`; otherwise the count grows by one and nothing is drawn |
| LegacySprite.StoreEmitsOne | sprite.h:196-202 | every quad `addQuad` accepts is counted exactly once, either pending or already drawn |
| LegacySprite.StoreCorners | sprite.h:234-239 | the four corners a quad is given land in its slot, in order, even when the batch is flushed |
| LegacySprite.CenteredCorners | sprite.h:169-175 | the centred overload builds four corners |
| LegacySprite.AddQuadCentered | sprite.h:167-203 | `addQuad(float3)` writes pos ± half the size in x and y, at the centre's depth, into its slot and emits one quad |
| LegacySprite.AddQuad | sprite.h:204-246 | `addQuad(float2)` writes pos, pos+(w,0), pos+(0,h) and pos+size at depth 1 into its slot and emits one quad |
| LegacySprite.StringStep | sprite.h:136-156 | in `drawString` a line break returns x to pos.x and adds the height of the bar character (code 124) to y, a space advances x by character 32's advance, and every other character yields exactly one quad at cursor + its offset, of its size, and advances the cursor by its advance |
| LegacySprite.DrawChars | sprite.h:136-156 | laying out characters keeps the sprite usable and its recorded state |
| LegacySprite.DrawCharsEmits | sprite.h:136-156 | every character other than '\n' and ' ' adds exactly one quad |
| LegacySprite.DrawString | sprite.h:132-158 | `drawString` leaves the sprite usable |
| LegacySprite.DrawStringDrawsGlyphs | sprite.h:132-158 | across however many batches, `drawString` draws exactly one quad per glyph character (a batch left pending before it is discarded by its `begin`) |
| SpriteBatch.Create | src/graphics/sprite.h:40-53 | a new batcher holds the two shaders it was given, arrays for 1024 quads, no quads and no current shader |
| SpriteBatch.Begin | src/graphics/sprite.h:92-98 | `begin` resets the count to 0, takes the texture, and uses the given shader or the default one when none is given |
| SpriteBatch.AddSprite | src/graphics/sprite.h:99-124 | `addSprite` fills slot q = `numQuads` with vertices pos, pos+(w,0), pos+(0,h), pos+size, texcoords (tmin.x,tmin.y), (tmax.x,tmin.y), (tmin.x,tmax.y), (tmax.x,tmax.y), one colour four times and indices 4q+{0,1,2,1,3,2}, and counts exactly one more quad; a free slot (`numQuads` < 1024) is the caller's obligation because nothing checks it |
| SpriteBatch.AddSpriteFrame | src/graphics/sprite.h:99-124 | `addSprite` changes no array entry outside its slot |
| SpriteBatch.AddSpriteKeepsIndicesFilled | src/graphics/sprite.h:116-123 | every filled index keeps pointing at a filled vertex |
| SpriteBatch.End | src/graphics/sprite.h:125-145 | `end` draws exactly the filled part of the arrays with the current texture and shader |
| SpriteBatch.TextStep | src/graphics/sprite.h:68-88 | a space advances x by the width of 'a', a tab by four times that, a line break returns x to the start and lowers y by the height of 'a', characters below 32 or above 126 are skipped, and every other character gives one quad at `origin + cursor·scale` of its size times the scale and advances x by its own width |
| SpriteBatch.Layout | src/graphics/sprite.h:68-88 | laying out a text gives one quad per glyph character |
| SpriteBatch.LayoutShift | src/graphics/sprite.h:68-88 | moving the starting cursor by d moves every quad by d·scale and changes nothing else about it |
| SpriteBatch.AsWrittenOffsetByPos | src/graphics/sprite.h:66-85 | as written, the cursor starts at `pos` and the quad is placed at `pos + cursor·scale`, so every quad lies `pos·scale` away from where it is meant to be |
| SpriteBatch.AsWrittenFirstGlyphMisplaced | src/graphics/sprite.h:66-85 | text at pos (10, 0), scale 1, starting with a glyph: as written the first quad is drawn at (20, 0), where (10, 0) is intended |
| SpriteBatch.TextQuadsAsWritten | src/graphics/sprite.h:62-91 | the text as written gives one quad per drawable character |
| SpriteBatch.TextQuads | src/graphics/sprite.h:62-91 | the text as intended gives one quad per drawable character |
| SpriteBatch.FirstGlyphAtPos | src/graphics/sprite.h:62-91 | as intended, a text that starts with a glyph draws it exactly at `pos`, whatever the scale |
| SpriteBatch.AddQuads | src/graphics/sprite.h:68-88 | adding quads one by one counts each once and keeps what was already filled |
| SpriteBatch.AddQuadsWrites | src/graphics/sprite.h:99-124 | the i-th quad added lands in slot `numQuads + i` with its corners, texcoords, colour and six indices |
| SpriteBatch.DrawQuads | src/graphics/sprite.h:62-91 | one batch in the font shader: exactly one draw of four vertices and six indices per quad, with the font's texture |
| SpriteBatch.DrawQuadsHold | src/graphics/sprite.h:62-91 | the draw uploads quad i in slot i |
| SpriteBatch.DrawTextAsWritten | src/graphics/sprite.h:62-91 | `drawText` as written issues one draw in the font texture and the font shader (the `shader` argument is never read), with one quad per glyph, holding the misplaced quads |
| SpriteBatch.DrawText | src/graphics/sprite.h:62-91 | `drawText` with the placement corrected: one draw whose slot i holds the i-th glyph of the text laid out from `pos` |
| MeshBuilding.EmptyConsistent | src/graphics/mesh.h:293-300 | `begin` and `clear` leave all five arrays empty, which is a consistent mesh |
| MeshBuilding.Offset | src/graphics/mesh.h:109-113 | each input index is offset by the previous vertex count and stored as an unsigned short |
| MeshBuilding.Geometry | src/graphics/mesh.h:103-123 | `geometry` appends exactly one subset {previous index count, `numind`, `materialId`}, the `numind` input indices plus the previous vertex count in order, and exactly `numvert` entries to each of vertices, normals and texcoords |
| MeshBuilding.GeometryConsistent | src/graphics/mesh.h:103-123 | when the new indices name the new vertices and the mesh stays addressable by an unsigned short, `geometry` keeps the three vertex arrays equally long, every index naming a vertex, and the subsets tiling the index array |
| MeshBuilding.SphereQuad | src/graphics/mesh.h:156-162 | the six indices of a sphere quad lie below sectors·(rings+1), thanks to the wrap k = (i+1) % sectors |
| MeshBuilding.SphereIndices | src/graphics/mesh.h:152-164 | `sphere` fills 6·sectors·rings indices, all below sectors·(rings+1) |
| MeshBuilding.SphereSlots | src/graphics/mesh.h:157-162 | the quad of sector i, ring j sits at slots (i·rings+j)·6 … +5 |
| MeshBuilding.Sphere | src/graphics/mesh.h:124-172 | `sphere` adds sectors·(rings+1) vertices and one subset of 6·sectors·rings indices, offset by the previous vertex count |
| MeshBuilding.SphereConsistent | src/graphics/mesh.h:124-172 | `sphere` keeps a consistent mesh consistent while it stays addressable by an unsigned short |
| MeshBuilding.BoxVertices | src/graphics/mesh.h:175-211 | a box has 24 vertices |
| MeshBuilding.Box | src/graphics/mesh.h:173-238 | `box` adds 24 vertices, normals and texcoords and 36 indices, four vertices per face with that face's normal and the texture corners tmin, (tmax.x,tmin.y), (tmin.x,tmax.y), tmax |
| MeshBuilding.BoxIndicesInRange | src/graphics/mesh.h:228-235 | the 36 raw box indices lie in 0..23 |
| MeshBuilding.BoxConsistent | src/graphics/mesh.h:173-238 | `box` keeps a consistent mesh consistent while it stays addressable by an unsigned short |
| TileWorld.Slot | world.h:63 | cell (x, y) is stored at x·height + y, inside the array |
| TileWorld.SlotInjective | world.h:63 | distinct cells are stored at distinct positions |
| TileWorld.Get | world.h:66-74 | `Get` returns the stored value in range and 0 for any x or y outside [0,width) × [0,height) |
| TileWorld.Set | world.h:58-65 | `Set` out of range changes nothing |
| TileWorld.SetThenGet | world.h:58-74 | after `Set(x, y, val)` in range, `Get(x, y)` is `val` and every other cell reads as before |
| TileWorld.HeightsSmooth | world.h:39-55 | the column heights of `Generate` change by at most 1 between neighbours, and the first is in {11, 12, 13} |
| TileWorld.Generate | world.h:37-57 | after `Generate`, column i is 1 for rows below its height and 0 from its height up |
| TileWorld.Write | world.h:48-52 | writing one cell leaves every other cell alone |
| TileWorld.Create | world.h:20-32 | after `create`, every cell is 0 or 1, and 1 exactly below its column's height |
| TileWorld.Trunc | world.h:79-80 | the `(int)` cast truncates toward zero |
| TileWorld.GetPoint | world.h:76-82 | a point hits exactly when the tile at its truncated coordinates divided by 16 is non-zero |
| TileWorld.Collision | world.h:83-103 | a box collides exactly when some tile with column in [trunc(min.x/16), trunc(max.x/16)+1) and row in [trunc(min.y/16), trunc(max.y/16)+1) is non-zero, out-of-range tiles counting as empty |
| ObjLoading.Spaces | mesh.h:25-27 | the first n spaces of a line are found exactly when it has at least n, each the k-th space in order |
| ObjLoading.ParseFloat2 | mesh.h:23-37 | `parseFloat2` fails exactly when the line has fewer than 2 spaces |
| ObjLoading.ParseFloat3 | mesh.h:38-56 | `parseFloat3` fails exactly when the line has fewer than 3 spaces |
| ObjLoading.Fan | mesh.h:57-88 | the fan over t0 and a rim of m corners has m−1 triangles (none for a rim of at most one corner) |
| ObjLoading.FanTriangle | mesh.h:81-83 | triangle i of the fan is (t0, t_i, t_(i+1)) |
| ObjLoading.FanSnoc | mesh.h:68-85 | one more corner on the rim adds exactly the triangle (t0, last corner, new corner) |
| ObjLoading.ReadFace | mesh.h:57-88 | `readFace` on a face with tokens t0..t(n−1) appends exactly the n−2 triples (t0, t_i, t_(i+1)), in order |
| ObjLoading.FanStep | mesh.h:68-85 | one pass of the `do … while` loop adds the next triangle and stops exactly at the last token |
| ObjLoading.FanLoop | mesh.h:68-85 | the face loop, started on the first two vertex strings, produces the triangle fan of all the vertex strings of the line |
| ObjLoading.FanFrom | mesh.h:68-85 | from any vertex string on, the loop completes the fan begun by the triangles already produced |
| ObjLoading.Firsts | mesh.h:148-160 | the distinct face-vertex strings are exactly those that occur |
| ObjLoading.FirstsDistinct | mesh.h:148-160 | no face-vertex string is numbered twice |
| ObjLoading.FirstOccurrence | mesh.h:155-159 | a string met for the first time gets as index the number of distinct strings seen before it |
| ObjLoading.CornerRefs | mesh.h:165-178 | the position number is the string's leading number minus 1, and a string without the p/t/n form has no normal (-1) |
| ObjLoading.ScanFailureSticks | mesh.h:106-132 | a malformed v, vt or vn line ends the load, whatever follows it |
| ObjLoading.ScanStep | mesh.h:103-137 | one line adds a texcoord, normal, position or face triangles by its first two characters, or fails when a vertex line is malformed |
| ObjLoading.ScanFile | mesh.h:103-137 | the first pass of the constructor fails exactly when some vertex line is malformed |
| ObjLoading.NumberedStep | mesh.h:148-184 | each vertex string of the second pass keeps "every string numbered by its first appearance, and one resolved vertex per distinct string" |
| ObjLoading.DedupBuilt | mesh.h:148-184 | after the second pass, each index is the place of its string among the distinct strings, and each distinct string has its position, normal (zero without one) and texcoord |
| ObjLoading.DedupLoaded | mesh.h:186 | finishing the second pass marks the loader loaded |
| ObjLoading.DedupVertex | mesh.h:150-183 | a string seen before repeats its number; a new one is numbered with the map's size and appends its resolved position, normal and texcoord |
| ObjLoading.Dedup | mesh.h:148-184 | the second pass over all face corners yields the loader the corner-by-corner definition describes |
| ObjLoading.Load | mesh.h:90-187 | the loader ends loaded exactly when no vertex line is malformed; a failed load leaves empty arrays; a finished one has its arrays numbered and resolved as above, and while at most 65536 strings are distinct every index is below the vertex count |
| ObjLoading.BuiltInRange | mesh.h:148-184 | with at most 65536 distinct strings every index names a built vertex, and vertices, normals and texcoords grow together |
| ObjLoading.LoadObj | mesh.h:300-322 | `loadObj` records exactly one subset from index 0 covering all indices, which is empty when loading failed |
| ObjLoading.WholeMesh | mesh.h:284-288 | `Mesh::create` records one subset, from index 0 with material 0, that covers every index |
| ObjLoading.AddSkybox | mesh.h:198-242 | `addSkybox` replaces the arrays by 8 corners of the cube of half-side `radius`, 8 diagonal normals, 8 texcoords and 36 indices, all below 8 and using every corner |
| ObjLoading.SkyboxInRange | mesh.h:232-241 | every skybox index names one of the eight corners |
| ObjLoading.SkyboxCoversCorners | mesh.h:232-241 | every corner is used by some triangle |
| ShaderSources.ReadLines | src/definitions.h:35-49 | the `getline` loop: a file that cannot be opened or is empty gives no lines; otherwise lines without breaks that, each written back with a break, are the file with its last line ended, so a final break adds no empty line |
| ShaderSources.RecordShrinks | src/graphics/shader.h:135-137 | recording a readable file that was not yet included strictly shrinks the set of files still to include, which is why circular includes end |
| ShaderSources.Record | src/graphics/shader.h:137 | the file goes at the end of the included list, which stays free of repeats |
| ShaderSources.Include | src/graphics/shader.h:125-155 | a file already included yields nothing and changes nothing; otherwise the file is recorded at the next position before any of its lines is processed, and the list only grows |
| ShaderSources.IncludeLines | src/graphics/shader.h:145-152 | processing the lines of a file only grows the included list, keeps it free of repeats and never forgets a recorded version or vertex line |
| ShaderSources.Preprocess | src/graphics/shader.h:63-124 | an include directive may change only the included list (and set a version when none was set); a vertex line is dropped and remembered only the first time; the first version line is kept and remembered and later ones are dropped; any other directive is dropped and changes nothing |
| ShaderSources.LoadIncludesOnce | src/graphics/shader.h:181-191 | loading records the named file first and includes no file twice |
| ShaderSources.IncludeTwice | src/graphics/shader.h:129-133 | including the same file again right after adds no text and leaves the state as it was |
| ShaderSources.SecondVersionDropped | src/graphics/shader.h:102-115 | of two version lines the second is removed from the output and the first stays recorded |
| ShaderSources.PlainLinesCopied | src/graphics/shader.h:145-152 | lines that are not directives come out verbatim, each followed by a line break, with the state untouched |
| ShaderSources.PlainFileLoads | src/graphics/shader.h:139-155 | a readable file without directives loads to its own text with the last line ended: a final break is not doubled and an empty file gives nothing |
| ShaderSources.SelfIncludeEnds | src/graphics/shader.h:135-137 | a file whose only line includes itself loads to a single empty line instead of recursing forever |
| ShaderSources.SelfIncludeSkipped | src/graphics/shader.h:129-133 | once the file is recorded, its self-include directive contributes nothing |
| ShaderSources.SelfIncludeLine | src/graphics/shader.h:145-152 | the self-including file's one line becomes just a line break |
| ShaderSources.Classify | src/graphics/shader.h:245-257 | a well-formed VERTEX line always names a non-empty vertex |
| ShaderSources.Kinds | src/graphics/shader.h:235-241 | every line of the file gets exactly one kind, and no kind names the empty vertex |
| ShaderSources.KindsAt | src/graphics/shader.h:235-241 | the kind of line j is the classification of that line alone |
| ShaderSources.VertexLines | src/graphics/shader.h:235-331 | the loop throws exactly when some remaining line is a VERTEX line without two tokens or an ATTRIBUTE line without three |
| ShaderSources.VertexLinesShaped | src/graphics/shader.h:243-328 | because the current vertex name is reset on every line, named vertex lists stay empty and every attribute lands under the empty name, numbered from -1 |
| ShaderSources.VertexLinesNames | src/graphics/shader.h:258-328 | the attribute names under the empty name grow by the names of the ATTRIBUTE lines, in file order |
| ShaderSources.AnyMalformedStep | src/graphics/shader.h:249-266 | a malformed line ahead is either the current line or one after it |
| ShaderSources.SplitLastNotEmpty | src/graphics/shader.h:237-255 | text that does not end in a space, such as a stripped line, splits into tokens whose last is not empty, so a two-token VERTEX line names a non-empty vertex |
| ShaderSources.ReadVertexFile | src/graphics/shader.h:225-332 | reading fails exactly when the file cannot be opened, is empty (the "error reading attribute file" throw) or has a malformed line; on success the table has the shape above and the empty name lists the ATTRIBUTE names in order |
| Textures.SignedChar | src/graphics/texture.h:158 | storing a code in the `char` field keeps it within -128..127 and congruent to the code modulo 256 |
| Textures.ScanFrom | src/graphics/texture.h:138-154 | the scan captures at most one value per remaining key |
| Textures.ScanValue | src/graphics/texture.h:141-153 | capturing the value of one key leaves at most one value for each key after it |
| Textures.Values | src/graphics/texture.h:135-154 | every line gives exactly six values, one per key |
| Textures.ReadRow | src/graphics/texture.h:134-157 | every line gives a code and six values |
| Textures.StreamRead | src/graphics/texture.h:159-162 | extracting from blank text leaves the field as it was; any other text stores its leading number, or 0 |
| Textures.ApplyRow | src/graphics/texture.h:156-162 | a line rewrites the slot its code names, with the code stored as a signed `char` and the rectangle read from the line |
| Textures.ApplyRowOthers | src/graphics/texture.h:158-162 | a line leaves every other slot alone |
| Textures.ApplyRows | src/graphics/texture.h:130-167 | the font keeps its 256 slots whatever the lines say |
| Textures.LoadFontChars | src/graphics/texture.h:124-170 | the glyphs after the loop are those the rows produce, one line after the other, from the first line to the last |
| Textures.ApplyAll | src/graphics/texture.h:130-167 | the loop applies every row, in order |
| Textures.ApplyRowsUntouched | src/graphics/texture.h:130-167 | a slot no line names keeps the glyph it had |
| Textures.ApplyRowsLastWins | src/graphics/texture.h:130-167 | when several lines name one slot, the last of them decides what it holds |
| Textures.ScanKeyStep | src/graphics/texture.h:140-149 | a key found where the scan stands yields the value that follows it |
| Textures.ScanValueStep | src/graphics/texture.h:141-152 | a value ending at a space is captured whole and the scan resumes after the space |
| Textures.ScanWritten | src/graphics/texture.h:138-154 | a line written key by key is scanned back into exactly the values written, as long as no value but the last holds a space |
| Textures.ValuesOfGlyphLine | src/graphics/texture.h:134-154 | a glyph line in the format the font tool writes reads back as its six values |
| Textures.ScanStops | src/graphics/texture.h:142-146 | once a key is missing the scan breaks off: no key from it on gets a value |
| Textures.NoCodeWritesSlotZero | src/graphics/texture.h:156-158 | a line lacking `code=` is read as code 0 and so lands in slot 0 |
| Textures.GetTexture | src/graphics/texture.h:80-98 | a cached name returns its texture and changes nothing; a new name allocates the loaded texture at the next handle and caches it, leaving the fonts alone; every cached handle stays valid |
| Textures.CacheFont | src/graphics/texture.h:171-192 | a cached font is returned unchanged; a new name allocates one texture and one font that owns it and holds the glyphs read, and caches that font only |
| Textures.GetFont | src/graphics/texture.h:171-192 | a new font holds the glyphs its text file describes, read into 256 zeroed slots |
| Textures.CacheFontTwice | src/graphics/texture.h:175-191 | asking twice for a font gives the same font and the second request loads nothing |
| Textures.GetTextureTwice | src/graphics/texture.h:83-97 | asking twice for a texture gives the same handle, and what the driver would load the second time is ignored |
| Textures.GetTextureKeepsHandles | src/graphics/texture.h:84-91 | loading a texture never changes what an earlier handle names |
| PackFont.ParseArgs | packfont/main.cpp:45-56 | fewer than three arguments is the usage error; otherwise the name and output come from the first and third, the size is at least 12 and is the given size when that is at least 12, and the font index (default 0) and oversampling (default 1) come from the optional fourth and fifth, with padding 1 |
| PackFont.FontData | packfont/main.cpp:64-66 | the `.ttf` bytes are used whenever that file opens, the `.ttc` bytes only when it does not, and nothing when neither opens |
| PackFont.Sizes | packfont/main.cpp:75 | the atlas sizes tried are strictly increasing, start no lower than the first size and never exceed 2048 |
| PackFont.AtlasSizes | packfont/main.cpp:74-75 | from 64 the loop tries exactly 64, 128, 256, 512, 1024 and 2048 |
| PackFont.Search | packfont/main.cpp:74-106 | the search reports total failure exactly when every size fails to pack its range; otherwise it stops at a tried size whose attempt it reports, and every smaller size failed |
| PackFont.Pixel | packfont/main.cpp:111 | a coverage byte becomes a white pixel whose top byte is the coverage |
| PackFont.PixelAlpha | packfont/main.cpp:109-112 | the pixel conversion keeps the coverage and is inverted by taking the alpha of a white pixel |
| PackFont.Pixels32 | packfont/main.cpp:109-112 | the pixel buffer has one pixel per coverage byte, each its conversion |
| PackFont.HeaderShape | packfont/main.cpp:120 | the header is a single non-empty line |
| PackFont.Fields | packfont/main.cpp:122-131 | a row has ten fields |
| PackFont.FieldsFree | packfont/main.cpp:122-131 | no field of a row is empty or holds a comma or a line break, so the row splits back into its ten fields |
| PackFont.RowLineShape | packfont/main.cpp:122-132 | a row is a single non-empty line |
| PackFont.RowLines | packfont/main.cpp:121-133 | there is one row per character, in order, numbered from 0 |
| PackFont.RowReadBack | src/game.cpp:583-594 | a row written by the tool is read back by `load_font` as its code and the same glyph rectangle and offsets |
| PackFont.TextLinesShape | packfont/main.cpp:119-133 | every line of the manifest is non-empty and without line breaks |
| PackFont.SpritefontLines | packfont/main.cpp:119-133 | split into lines, the manifest is the header followed by the rows, and the rows are what the CSV reader hands on after the header |
| PackFont.Expected | src/game.cpp:583-594 | the k-th expected row fills glyph k with the k-th packed character |
| PackFont.SpritefontRows | src/game.cpp:522-594 | the rows `load_font` reads from the manifest are exactly the expected ones |
| PackFont.FontOfNumberedRows | src/game.cpp:578-602 | 128 manifest rows numbered 0 to 127 in order name glyphs in range and load into the font whose glyph i is row i's |
| PackFont.SpritefontRoundTrip | packfont/main.cpp:119-134 | what the tool writes, the engine reads back: glyph i of the loaded font is the packer's character i |
| PackFont.Run | packfont/main.cpp:42-149 | exit 0 exactly when both files are written; 1 exactly on too few arguments; 2 exactly when no font data was found; 6 exactly when every atlas size fails; only the codes 0, 1, 2, 3, 5 and 6 occur; on success the image is the smallest packed atlas and the manifest lists its characters |
| PackFont.RunRoundTrip | packfont/main.cpp:107-148 | a successful run writes a manifest that the engine loads glyph for glyph |
| PackFont.EmptyTtfHidesTtc | packfont/main.cpp:64-70 | an empty `.ttf` that opens is used as is, so the run fails with code 2 even when a `.ttc` with data exists |
| Xml2Csv.Key | spritesheet_xml2csv.py:17 | the searched text is the attribute name followed by an equals sign and a double quote |
| Xml2Csv.FindAttr | spritesheet_xml2csv.py:16-24 | a value found holds no comma and no quote (and no line break when the line has none); an error names the attribute looked up |
| Xml2Csv.ValueAtFound | spritesheet_xml2csv.py:17-21 | where the line holds a value for the attribute, the two searches stop at its two ends and the slice is that value |
| Xml2Csv.FoundValueAt | spritesheet_xml2csv.py:17-19 | whenever the attribute is not reported missing, the line holds a value for it |
| Xml2Csv.SearchedValueAt | spritesheet_xml2csv.py:17-21 | the slice between the positions the searches find is a value for the attribute |
| Xml2Csv.FindAttrSpec | spritesheet_xml2csv.py:16-24 | the function returns the value after the first `attr="` up to the next quote when it holds no comma, raises the comma error when it does, and raises the missing-attribute error when there is no such value |
| Xml2Csv.FindAll | spritesheet_xml2csv.py:37 | on success there is one value per attribute, each the attribute's own lookup |
| Xml2Csv.FindAllFrom | spritesheet_xml2csv.py:37 | the comprehension from an attribute on returns the lookups of the remaining attributes, in order |
| Xml2Csv.FindAllError | spritesheet_xml2csv.py:37-40 | a failing comprehension fails with the error of the first attribute whose lookup fails, all earlier ones succeeding |
| Xml2Csv.FindAllFromError | spritesheet_xml2csv.py:37 | from any attribute on, the error raised is that of the first failing lookup at or after it |
| Xml2Csv.TrimStart | spritesheet_xml2csv.py:35 | removing leading white space leaves a suffix that starts with a non-space, having dropped only white space |
| Xml2Csv.TrimEnd | spritesheet_xml2csv.py:35 | removing trailing white space leaves a prefix that ends with a non-space, having dropped only white space |
| Xml2Csv.PyStrip | spritesheet_xml2csv.py:35 | a stripped line neither starts nor ends with white space, and gains no line break |
| Xml2Csv.StripLineBreak | spritesheet_xml2csv.py:34-35 | stripping makes a line the same with or without the line break `readlines` leaves on it |
| Xml2Csv.PyLines | spritesheet_xml2csv.py:34 | the lines read hold no line breaks |
| Xml2Csv.PyLinesOfTerminated | spritesheet_xml2csv.py:34 | text made of lines each ended by a line break reads back as those lines, empty ones included |
| Xml2Csv.ParseLineSound | spritesheet_xml2csv.py:35-37 | every value read from a stripped line is a comma-free piece of it, one per column, and stripping adds no line break |
| Xml2Csv.ParseLinesAt | spritesheet_xml2csv.py:34-37 | the k-th reading is that of the k-th line alone |
| Xml2Csv.Collect | spritesheet_xml2csv.py:36-40 | every line read gives exactly one row or one error |
| Xml2Csv.CollectRows | spritesheet_xml2csv.py:37-38 | the rows collected from sound readings have five comma-free values each |
| Xml2Csv.CollectNoBreaks | spritesheet_xml2csv.py:37-38 | rows read from lines without line breaks hold none |
| Xml2Csv.Process | spritesheet_xml2csv.py:34-40 | every line of the input becomes either one row or one printed error |
| Xml2Csv.ProcessRows | spritesheet_xml2csv.py:37-38 | every row written has five values and none holds a comma |
| Xml2Csv.ProcessNoBreaks | spritesheet_xml2csv.py:34-38 | lines without line breaks give rows without line breaks |
| Xml2Csv.ProcessAppend | spritesheet_xml2csv.py:34-40 | lines are converted independently: the rows and errors of two blocks of lines are those of each block, in order |
| Xml2Csv.ProcessOne | spritesheet_xml2csv.py:35-40 | a line gives a particular row exactly when that row describes the stripped line (one comma-free value per column at the first `attr="`), and gives no row exactly when no row describes it |
| Xml2Csv.DescribesFound | spritesheet_xml2csv.py:37 | a row that describes a line is exactly what the lookups read from it |
| Xml2Csv.FindAllAll | spritesheet_xml2csv.py:37 | when every lookup succeeds the comprehension returns all their values, in order |
| Xml2Csv.DescribesUnique | spritesheet_xml2csv.py:16-24 | a line is described by at most one row |
| Xml2Csv.DescribedRow | spritesheet_xml2csv.py:37 | the values read for the five columns describe the line |
| Xml2Csv.RowLines | spritesheet_xml2csv.py:38 | one output line per row, each the row's values joined by commas |
| Xml2Csv.Convert | spritesheet_xml2csv.py:32-40 | the output starts with the header line and is a manifest `load_sprite` (src/game.cpp:556-576) reads back: after the header, one line per row whose five cells are the row's values |
| Xml2Csv.ManifestOfRows | spritesheet_xml2csv.py:33-38 | five comma-free, break-free values per row, written under the header, read back as the same rows |
| Xml2Csv.RunAsWritten | spritesheet_xml2csv.py:26-40 | usage is printed exactly when there is no argument or the first asks for help; the script fails exactly when it gets past that and the output name is missing or a file cannot be opened |
| Xml2Csv.LoneInputCrashes | spritesheet_xml2csv.py:27-31 | with an input name but no output name the script fails instead of printing its usage |
| Xml2Csv.Run | spritesheet_xml2csv.py:7-40 | usage is printed exactly when either file name is missing or help is asked for; the run fails exactly when a file cannot be opened; otherwise the output is the conversion of the input |
| Xml2Csv.RunAgrees | spritesheet_xml2csv.py:26-40 | with both file names given, the corrected script behaves exactly as the script as written |
| Tge.ToU32 | src/game.cpp:363-365 | a number handed to the `unsigned` parameter keeps its value when it is already in range and wraps by 2^32 when it is negative, so -1 becomes the largest handle |
| Vectors.Put | sprite.h:192-195 | copying a block into an array overwrites exactly the positions from the offset on, one per copied element, and leaves every other position as it was |

## Left out

- GPU, window and audio calls: every OpenGL, GLFW, irrKlang, stb and SOIL call. A flush is a recorded draw event, fullscreen switching (F4) is only an event, and the sound functions, `set_shader_sprite` and the `set_shader_*` uniform setters are not modelled. The wrapper files `src/graphics/buffer.h`, `src/graphics/surface.h` and `src/internal/gl_helpers.cpp` are not part of this model.
- Floating-point geometry: the rotate and scale corner arithmetic of `draw_sprite_part` (src/game.cpp:857-879) is a `Layout` parameter; sphere positions, normals and texture coordinates (the sines and cosines of src/graphics/mesh.h:140-150) are a parameter of `MeshBuilding.Sphere`; the `math3d.h` files, `src/graphics/camera.h`, `src/collision.h` and the CubeGame logic of `src/cubegame.h` and src/main.cpp:43-148 are not part of this model.
- Number decoding: `stof_safe`, `atof`, `atoi`, `strtod` and stream extraction keep the integer part of the text; fractions, exponents and the `round` of `load_font` are not modelled, so coordinates of the scripted runtime are integers.
- The interpreter: `value_to_*`, `tack_func` and `script->call` are foreign; a hook call is a success or failure flag, the `dofile` and random-number bindings are not modelled, and exceptions thrown inside a `load_csv` callback are not modelled.
- File reading: file contents are parameters (`Option<string>`, or a map from name to contents for shaders); `readTextFile` of funcs.h returning `0` as a string on a missing file (funcs.h:59) is not modelled.
- Randomness: the `rand` steps of `World::Generate` (world.h:39-55, after `srand(100)`) are a sequence of steps in {-1, 0, 1}.
- Uninitialised memory: arrays the source leaves uninitialised (the batchers' vertex arrays, `SpriteFont` in `sprite.h`) are modelled as zero-filled.
- `src/game.h` `init`: its failure codes and its missing return on success (src/game.h:212-234) are an `initResult` parameter of `GameLoop.Run`.
- Defects in code outside the bookkeeping: `Font::create` and `Primitive::create` of `sprite.h`, `prism`, the `MeshManager` caches of src/graphics/mesh.h, `getCubeTexture` of src/graphics/texture.h and `getShader` of src/graphics/shader.h are not modelled.
- `jamesgl.h`, `src/gamestate.h` and the `Keys`/`Mouse` constant tables hold no logic and are not modelled.
- ObjLoading.CornerRefs: the "p//n" and "p/t" face forms read the wrong offsets in the source (mesh.h:174-178); the model requires a corner in the "p/t/n" form or a form whose offsets stay inside the string.
- ObjLoading.AddSkybox: states the counts, the index range and that every corner is used, but not which three corners each of the twelve triangles joins.
- Runtime.SetShader: requires the handle to be in range or null, because `set_shader` indexes the registry without a check (src/game.cpp:715).
- Registries.LoadFont: requires every glyph code in the manifest to lie in 0..127, because `load_font` indexes the 128-glyph array without a check.
- Textures.LoadFontChars: requires every code read to lie in 0..255, because `loadFontChars` indexes the 256-glyph array without a check.
- SpriteBatch.AddSprite: requires fewer than 1024 queued quads, because `addSprite` does no capacity check.
- QuadBatch.DrawSpritePart: keeps the 16-bit truncation of the base index past 65535 vertices; the index range is proved only below 65536 vertices.
- Input.OnKey: requires a code with a slot in the key array; the source writes out of bounds for any other code, GLFW's -1 for an unnamed key included, which `Input.OnKeyChecked` models corrected.
- Lifecycle.InitScriptSafe: the interpreter leaked when setup throws (src/game.cpp:181, 451) is not modelled.

## Findings

| source | as written | input that shows it | evidently intended | confidence | as-written member | corrected member |
|---|---|---|---|---|---|---|
| src/definitions.h:18 | the `max` macro is the same expression as `min` | `max(1, 2)` yields 1 | the larger argument | not executed | Definitions.MaxAsWrittenIsMin | Definitions.Max |
| src/graphics/sprite.h:66-85 | the cursor starts at `pos` and each quad is placed at `pos + cursor * scale`, counting `pos` twice | text "A" at pos (10, 0), scale (1, 1): the quad starts at x = 20 | the first glyph starts at `pos` | not executed | SpriteBatch.AsWrittenFirstGlyphMisplaced | SpriteBatch.FirstGlyphAtPos |
| input.h:4-7 | the key and button arrays hold `GLFW_KEY_LAST` and `GLFW_MOUSE_BUTTON_LAST` entries | key 348 (Menu) or mouse button 7 indexes past the end | arrays one longer, indexed by every code GLFW reports | not executed | Input.LastCodesOutOfRange | Input.FreshSized |
| src/game.h:50-53 | the `Input` class of the current engine declares the same short arrays and copies that short size at src/game.h:71-72 | key 348 (Menu) or mouse button 7 indexes past the end | arrays one longer, indexed by every code GLFW reports | not executed | Input.LastCodesOutOfRange | Input.FreshSized |
| src/game.h:150-156 | the key callback writes `newKeys[key]` without a bounds check, as does src/game.cpp:100-105 with `keys_new[key]` | GLFW's code -1 for an unnamed key writes before the array | codes without a slot are ignored | not executed | Input.UnknownKeyOutOfRange | Input.OnKeyChecked |
| spritesheet_xml2csv.py:27-31 | usage is printed only without arguments or on a help request | `spritesheet_xml2csv.py sheet.xml` raises at `sys.argv[2]` | usage printed when the output name is missing | not executed | Xml2Csv.LoneInputCrashes | Xml2Csv.Run |
