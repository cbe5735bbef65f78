# Three components of the D2 chat bot, modelled in Dafny

The project models three parts of the bot.

- **`gif.dfy`, module `Gif`**: the GIF89a encoder for looping animations, `AnimatedGif`.
  - The encoder owns an append-only byte buffer `data`.
  - The constructor writes the header "GIF89a", the logical screen descriptor and the Netscape "NETSCAPE2.0" looping application extension.
  - Each frame appends four blocks: a graphic control extension, an image descriptor, a 256-entry local colour table, and LZW-compressed image data cut into sub-blocks of at most 255 bytes.
  - `AppendTrailer` appends the trailer byte 0x3B.
  - Packed bytes are assembled most significant field first by `PackedFieldByte`.
  - `AnimatedGif` and `PackedFieldByte` are classes whose methods update their fields in place. The loops of the source are `for` and `while` loops with invariants.
  - Each method is proved against a byte-layout function (`Prologue`, `FrameBytes`, `ColorTableBytes`, `ImageDataBytes`, ...).
  - The class invariant `Valid` states that `data` is the prologue followed by the encoding of every frame and trailer appended so far. The appended parts are kept in a ghost field.
  - The LZW compressor and the colour quantizer are parameters of the frame-appending methods, given as functions.
- **`gif_reader.dfy`, module `GifReader`**: a decoder for the GIF89a block layouts the encoder uses, written from the GIF89a specification (sections 15 to 27).
  - It is the encoder's partner. `GifRoundTrip` and `EncoderOutputDecodes` prove that decoding any buffer the encoder produced from palettes of at most 256 colours gives back the canvas size, the loop count and every frame and trailer, in order, with every field as written.
- **`wikitext.dfy`, module `Wikitext`**: the recursive-descent parser for the subset of wikitext used by the Minecraft wiki.
  - The parser works on a token sequence and a position, which stand for the source's token iterator.
  - The functions `NodeAt`, `NodesFrom`, `TemplateAt`, `ParamsFrom`, `ParameterAt`, `SectionAt`, `SectionsFrom` and `WikitextOf` are the reference definition. Each returns what was parsed and the next position, or the error the source throws.
  - The methods `ParseNode`, `ParseNodes`, `ParseTemplate`, `ParseTemplateParameter`, `ParseSection` and `ParseWikitext` follow the source's `while` loops and are proved to return exactly the reference result.
  - The partner of the parser is an unparser (`NodeTokens`, `SectionsTokens`, ...). `DocumentRoundTrip` proves that parsing the tokens of a well-formed document gives the document back.
  - Errors are rethrown, as in the source. `NodesError` proves it for the node loop, `SectionsError` for the section loop, and `FirstSectionError` and `LaterSectionError` for the whole parse: a node rejected inside the first section, or a section rejected after any number of well-formed sections, ends the parse with that error.
- **`tictactoe.dfy`, module `TicTacToe`**: the tic-tac-toe role enum with its raw values, its chat encodings, the player-role predicate, the opponent involution and the list of player roles.

## Model

| member | source | states |
|---|---|---|
| TicTacToe.TicTacToeRole.RawValue | Sources/D2/command/tictactoe/TicTacToeRole.swift:1-4 | every role is stored under a one-character raw value |
| TicTacToe.TicTacToeRole.DiscordEncoded | Sources/D2/command/tictactoe/TicTacToeRole.swift:8-14 | every chat encoding is an emoji shortcode delimited by colons |
| TicTacToe.TicTacToeRole.IsPlayerRole | Sources/D2/command/tictactoe/TicTacToeRole.swift:16 | the player roles are exactly x and o, the roles whose raw value is not a space |
| TicTacToe.TicTacToeRole.Opponent | Sources/D2/command/tictactoe/TicTacToeRole.swift:17-23 | the opponent of a player is the other player, a player role is kept as a player role, and the empty role stays itself |
| TicTacToe.AllCases | Sources/D2/command/tictactoe/TicTacToeRole.swift:1-4 | the enum has three pairwise distinct cases |
| TicTacToe.AllCasesComplete | Sources/D2/command/tictactoe/TicTacToeRole.swift:1-4 | every role occurs in the list of all cases |
| TicTacToe.PlayerRoles | Sources/D2/command/tictactoe/TicTacToeRole.swift:6 | the filter keeps exactly the player roles of its input, each as often as it occurs there, drops every empty role, and never lengthens the input |
| TicTacToe.PlayerRolesAppend | Sources/D2/command/tictactoe/TicTacToeRole.swift:6 | the filter keeps the input's order: filtering a concatenation filters each part and concatenates the results |
| TicTacToe.AllPlayerCases | Sources/D2/command/tictactoe/TicTacToeRole.swift:6 | the player cases are exactly x then o, in declaration order |
| TicTacToe.OpponentIsInvolution | Sources/D2/command/tictactoe/TicTacToeRole.swift:17-23 | the opponent of the opponent is the role itself |
| TicTacToe.OpponentSwapsPlayers | Sources/D2/command/tictactoe/TicTacToeRole.swift:19-21 | x and o are each other's opponent, and the empty role is its own opponent |
| TicTacToe.RawValuesDistinct | Sources/D2/command/tictactoe/TicTacToeRole.swift:2-4 | two roles have the same raw value exactly when they are the same role |
| TicTacToe.DiscordEncodingsDistinct | Sources/D2/command/tictactoe/TicTacToeRole.swift:8-14 | two roles have the same chat encoding exactly when they are the same role |
| Wikitext.ParseText | Sources/D2NetAPIs/minecraft/wiki/MinecraftWikitextParser.swift:115-119 | succeeds exactly on a text token, consumes that one token and returns its text; otherwise it throws noMoreTokens |
| Wikitext.ParseLink | Sources/D2NetAPIs/minecraft/wiki/MinecraftWikitextParser.swift:76-82 | succeeds exactly on `[[`, a text token and `]]`, consumes those three tokens and returns a link to the text; any other shape or the end of input throws noMoreTokens |
| Wikitext.ParseTemplateParameterKey | Sources/D2NetAPIs/minecraft/wiki/MinecraftWikitextParser.swift:106-113 | never fails; returns the key, consuming two tokens, exactly when a text token is followed by the symbol `=`; otherwise returns no key and consumes nothing |
| Wikitext.ParseTitle | Sources/D2NetAPIs/minecraft/wiki/MinecraftWikitextParser.swift:121-128 | without an opening `=` symbol: no title and nothing consumed; with one: succeeds exactly when a text token and the identical closing symbol follow, consuming three tokens; a missing text throws noMoreTokens, a wrong closing throws unexpectedToken |
| Wikitext.NodeAt | Sources/D2NetAPIs/minecraft/wiki/MinecraftWikitextParser.swift:65-74 | returns no node exactly at the end of input or at a symbol other than `[[` or `{{`; at a text token it returns what the text parser returns, and at `[[` what the link parser returns, errors included; a node consumes at least one token and no node consumes none (`NodeAtTemplate` gives the `{{` case) |
| Wikitext.NodeAtTemplate | Sources/D2NetAPIs/minecraft/wiki/MinecraftWikitextParser.swift:71 | one step of the definition: at `{{` the node parser returns what the template parser returns, errors included |
| Wikitext.NodesFrom | Sources/D2NetAPIs/minecraft/wiki/MinecraftWikitextParser.swift:56-63 | at a token that starts no node it returns no nodes and consumes nothing; on success it stops at a token that starts no node, and returns no nodes exactly when it consumed nothing; `NodesStep` gives one turn of the loop and `NodesError` the error a node throws |
| Wikitext.TemplateAt | Sources/D2NetAPIs/minecraft/wiki/MinecraftWikitextParser.swift:84-95 | a template starts with `{{` and a text name, which becomes its name; after `{{` and a name, an error from the parameter loop is the template's error, and otherwise the template is parsed exactly when the token after the parameters is `}}`, with those parameters and the position past `}}`; without `{{` and a name, or without the closing `}}`, it throws noMoreTokens |
| Wikitext.ParamsFrom | Sources/D2NetAPIs/minecraft/wiki/MinecraftWikitextParser.swift:88-92 | when the next token is not `|` it returns no parameters and consumes nothing; otherwise it stops at the first token that is not `|`, and returns no parameters exactly when it consumed nothing; `ParamsStep` gives one turn of the loop and `ParamsFirstError` the error a parameter throws |
| Wikitext.ParameterAt | Sources/D2NetAPIs/minecraft/wiki/MinecraftWikitextParser.swift:97-104 | an error of the node list after the optional key is the parameter's error; otherwise the parameter holds exactly those nodes and ends where they end, at a token that starts no node; it is a key-value parameter exactly when a key is present, and the key is the text of the token at the parameter's start |
| Wikitext.SectionAt | Sources/D2NetAPIs/minecraft/wiki/MinecraftWikitextParser.swift:48-54 | an error of the title parser or of the node list after the title is the section's error; otherwise it ends where the node list ends, and a returned section holds that title and those nodes; it returns no section, consuming nothing, exactly at a token that starts neither a title nor a node, and a returned section has a title or some content |
| Wikitext.SectionsFrom | Sources/D2NetAPIs/minecraft/wiki/MinecraftWikitextParser.swift:41-44 | at a token that starts neither a title nor a node it returns no sections; an error of the first section is the loop's error; on success it stops at a token that starts neither a title nor a node, and every section it returns has a title or some content; `SectionsStep` gives one turn of the loop |
| Wikitext.WikitextOf | Sources/D2NetAPIs/minecraft/wiki/MinecraftWikitextParser.swift:39-46 | tokens that start neither a title nor a node give the empty document; an error of the first section is the document's error (`FirstSectionError` carries an error from later in the first section, `LaterSectionError` one from a later section); on success parsing stops at the first token that starts neither a title nor a node and leaves the tokens after it unread, and every section has a title or some content |
| Wikitext.ParseNode | Sources/D2NetAPIs/minecraft/wiki/MinecraftWikitextParser.swift:65-74 | the node parser returns exactly the reference result `NodeAt` |
| Wikitext.ParseNodes | Sources/D2NetAPIs/minecraft/wiki/MinecraftWikitextParser.swift:56-63 | the loop over nodes returns exactly `NodesFrom`: the nodes in token order |
| Wikitext.ParseTemplate | Sources/D2NetAPIs/minecraft/wiki/MinecraftWikitextParser.swift:84-95 | the template parser with its parameter loop returns exactly `TemplateAt`, including the error when `}}` does not follow the parameters |
| Wikitext.ParseTemplateParameter | Sources/D2NetAPIs/minecraft/wiki/MinecraftWikitextParser.swift:97-104 | the parameter parser returns exactly `ParameterAt` |
| Wikitext.ParseSection | Sources/D2NetAPIs/minecraft/wiki/MinecraftWikitextParser.swift:48-54 | the section parser returns exactly `SectionAt` |
| Wikitext.ParseWikitext | Sources/D2NetAPIs/minecraft/wiki/MinecraftWikitextParser.swift:39-46 | the loop over sections returns exactly `WikitextOf`: the sections in token order |
| Wikitext.NodeTokens | Sources/D2NetAPIs/minecraft/wiki/MinecraftWikitextParser.swift:65-74 | a written node starts with a token on which the node parser dispatches: text, `[[` or `{{` |
| Wikitext.ParamTokens | Sources/D2NetAPIs/minecraft/wiki/MinecraftWikitextParser.swift:89-91 | a written parameter starts with the `|` that the parameter loop looks for |
| Wikitext.NodeRoundTrip | Sources/D2NetAPIs/minecraft/wiki/MinecraftWikitextParser.swift:65-95 | parsing the tokens of a node gives the node back and stops right after them |
| Wikitext.NodesRoundTrip | Sources/D2NetAPIs/minecraft/wiki/MinecraftWikitextParser.swift:56-63 | parsing the tokens of a node list, followed by a token that starts no node, gives the list back in order |
| Wikitext.NodesStep | Sources/D2NetAPIs/minecraft/wiki/MinecraftWikitextParser.swift:59-60 | one step of the definition: when the node parser returns a node, the node loop returns that node in front of what the loop returns from the position after it, or that loop's error |
| Wikitext.NodesError | Sources/D2NetAPIs/minecraft/wiki/MinecraftWikitextParser.swift:59 | written nodes followed by a token on which the node parser throws: the node loop throws that error, whatever it parsed before |
| Wikitext.ValueHasNoKey | Sources/D2NetAPIs/minecraft/wiki/MinecraftWikitextParser.swift:106-113 | a positional parameter that is written out is not read back as a key |
| Wikitext.ParamRoundTrip | Sources/D2NetAPIs/minecraft/wiki/MinecraftWikitextParser.swift:97-113 | parsing a written parameter, followed by `|` or `}}`, gives back the parameter with its key or as positional |
| Wikitext.ParamsRoundTrip | Sources/D2NetAPIs/minecraft/wiki/MinecraftWikitextParser.swift:88-92 | the parameter loop over written parameters, followed by `}}`, gives the parameters back in order |
| Wikitext.ParamsStep | Sources/D2NetAPIs/minecraft/wiki/MinecraftWikitextParser.swift:89-91 | one step of the definition: after `|`, a parsed parameter is put in front of what the parameter loop returns from the position after it, or that loop's error |
| Wikitext.ParamsFirstError | Sources/D2NetAPIs/minecraft/wiki/MinecraftWikitextParser.swift:89-91 | one step of the definition: after `|`, an error of the parameter parser is the parameter loop's error |
| Wikitext.SectionRoundTrip | Sources/D2NetAPIs/minecraft/wiki/MinecraftWikitextParser.swift:48-54 | the section parser reads a written section, titled or not, back and stops right after its tokens |
| Wikitext.SectionsStep | Sources/D2NetAPIs/minecraft/wiki/MinecraftWikitextParser.swift:42-43 | one step of the definition: when the section parser returns a section, the section loop returns it in front of what the loop returns from the position after it, or that loop's error |
| Wikitext.TitleStopsNodes | Sources/D2NetAPIs/minecraft/wiki/MinecraftWikitextParser.swift:123 | the title that starts the next section ends the node list of the one before |
| Wikitext.SectionsRoundTrip | Sources/D2NetAPIs/minecraft/wiki/MinecraftWikitextParser.swift:41-44 | the section loop over the tokens of well-formed sections gives the sections back in order |
| Wikitext.SectionsError | Sources/D2NetAPIs/minecraft/wiki/MinecraftWikitextParser.swift:41-44 | sections read one by one and followed by a section the section parser rejects: the section loop throws that error, whatever it parsed before |
| Wikitext.SectionsReadInTurn | Sources/D2NetAPIs/minecraft/wiki/MinecraftWikitextParser.swift:41-54 | well-formed written sections followed by a token that stops the node parser are read back one by one by the section parser, each stopping where the next begins |
| Wikitext.DocumentRoundTrip | Sources/D2NetAPIs/minecraft/wiki/MinecraftWikitextParser.swift:39-128 | parsing the tokens of a well-formed document, followed by anything that starts neither a title nor a node, gives the document back and stops where its tokens end |
| Wikitext.FirstSectionError | Sources/D2NetAPIs/minecraft/wiki/MinecraftWikitextParser.swift:39-59 | a first section written out, titled or not, followed by a token on which the node parser throws: parsing the document throws that error |
| Wikitext.LaterSectionError | Sources/D2NetAPIs/minecraft/wiki/MinecraftWikitextParser.swift:39-54 | a well-formed document written out and followed by a section the section parser rejects, in whichever position: parsing the document throws that error |
| Wikitext.SecondSectionLinkFails | Sources/D2NetAPIs/minecraft/wiki/MinecraftWikitextParser.swift:39-82 | two titled sections whose second holds `[[` without link text: parsing throws the link parser's "Expected link" error |
| Wikitext.UnfinishedLinkFails | Sources/D2NetAPIs/minecraft/wiki/MinecraftWikitextParser.swift:76-79 | the tokens text, `[[`, `|` do not parse: the link parser's "Expected link" error ends the whole parse |
| Gif.DisposalMethod.RawValue | Sources/D2Graphics/gif/AnimatedGif.swift:40-44 | disposal methods have the raw values 1 to 3 |
| Gif.AnimatedGif.ColorCountOf | Sources/D2Graphics/gif/AnimatedGif.swift:19 | the colour count makes a full local colour table of 768 bytes, and the transparent index 0xFF is its last entry |
| Gif.Mask | Sources/D2Graphics/gif/AnimatedGif.swift:62 | the mask of `bits` bits has exactly the low `bits` bits set and every higher bit clear |
| Gif.Placed | Sources/D2Graphics/gif/AnimatedGif.swift:63-64 | the masked value shifted to the bit index: an empty field places nothing, and a field that ends at the last bit sits unshifted in the low bits; where the field lands, and what it leaves alone, is stated by `AppendPlacesField`, `AppendKeepsEarlierFields` and `AppendLeavesRestClear` |
| Gif.AppendPlacesField | Sources/D2Graphics/gif/AnimatedGif.swift:60-66 | an appended field lands MSB-first right after the earlier fields and reads back as the appended value cut to its width; higher bits are dropped, and the first field takes the top bits |
| Gif.AppendKeepsEarlierFields | Sources/D2Graphics/gif/AnimatedGif.swift:60-66 | appending leaves every bit before the bit index as it was |
| Gif.AppendLeavesRestClear | Sources/D2Graphics/gif/AnimatedGif.swift:60-66 | after an append, the bits after the new field are still clear |
| Gif.AppendKeepsBits | Sources/D2Graphics/gif/AnimatedGif.swift:64 | appending never clears a bit that was set |
| Gif.PackedFieldByte.constructor | Sources/D2Graphics/gif/AnimatedGif.swift:47-48 | a new packed byte is zero, with the bit index at the top bit |
| Gif.PackedFieldByte.Append | Sources/D2Graphics/gif/AnimatedGif.swift:60-66 | ORs the masked value into the byte at the bit index and advances the index by the width, keeping the unwritten bits clear |
| Gif.PackedFieldByte.AppendFlag | Sources/D2Graphics/gif/AnimatedGif.swift:68-70 | a flag is a one-bit field of value 1 or 0 |
| Gif.Short | Sources/D2Graphics/gif/AnimatedGif.swift:77-80 | a 16-bit value is two bytes, low byte first, and low + 256 * high gives the value back |
| Gif.Utf8Char | Sources/D2Graphics/gif/AnimatedGif.swift:82-84 | a character takes 1 to 4 bytes, one byte equal to its code exactly when it is ASCII, and continuation bytes lie in 0x80..0xBF |
| Gif.Utf8 | Sources/D2Graphics/gif/AnimatedGif.swift:82-84 | a string encodes to at least one and at most four bytes per character, and to nothing exactly when it is empty; `Utf8Ascii` gives the bytes of an ASCII string |
| Gif.Utf8Ascii | Sources/D2Graphics/gif/AnimatedGif.swift:82-84 | an ASCII string is written as one byte per character, each its character code |
| Gif.SignatureIsUtf8 | Sources/D2Graphics/gif/AnimatedGif.swift:86-88 | the header string is the six signature bytes "GIF89a" |
| Gif.NetscapeIdentifierIsUtf8 | Sources/D2Graphics/gif/AnimatedGif.swift:115 | the application identifier is the eleven bytes "NETSCAPE2.0" |
| Gif.ScreenDescriptorBytes | Sources/D2Graphics/gif/AnimatedGif.swift:90-109 | the logical screen descriptor is 7 bytes |
| Gif.LoopingExtensionBytes | Sources/D2Graphics/gif/AnimatedGif.swift:111-120 | the looping application extension is 19 bytes |
| Gif.Prologue | Sources/D2Graphics/gif/AnimatedGif.swift:26-36 | what the constructor writes is 32 bytes starting with the signature; `PrologueLayout` gives every field |
| Gif.PrologueLayout | Sources/D2Graphics/gif/AnimatedGif.swift:26-36 | what the constructor writes is exactly 32 bytes: "GIF89a", width and height little-endian, 0x77 0x00 0x00, 0x21 0xFF 0x0B, "NETSCAPE2.0", 0x03 0x01, the loop count little-endian and 0x00 |
| Gif.ControlExtensionBytes | Sources/D2Graphics/gif/AnimatedGif.swift:122-141 | the graphic control extension is 8 bytes |
| Gif.ImageDescriptorBytes | Sources/D2Graphics/gif/AnimatedGif.swift:143-162 | the image descriptor is 10 bytes |
| Gif.RgbBytes | Sources/D2Graphics/gif/AnimatedGif.swift:169-174 | three bytes per colour: the red, green and blue of colour j at 3j, 3j+1 and 3j+2 |
| Gif.Zeros | Sources/D2Graphics/gif/AnimatedGif.swift:176-179 | the padding is the requested number of zero bytes |
| Gif.ColorTableBytes | Sources/D2Graphics/gif/AnimatedGif.swift:164-180 | the local colour table starts with the palette's red, green and blue bytes and is 768 bytes long for a palette of at most 256 colours, three bytes per colour otherwise; `ColorTableLayout` adds that the padding is zeros |
| Gif.ColorTableLayout | Sources/D2Graphics/gif/AnimatedGif.swift:164-180 | a palette of at most 256 colours is written as exactly 768 bytes: its colours in order, then zeros |
| Gif.SubBlocks | Sources/D2Graphics/gif/AnimatedGif.swift:199-208 | the sub-blocks hold every compressed byte plus one size byte per sub-block, as many as `SubBlockSizes` lists, and are empty exactly when there is nothing to write; `SubBlocksRoundTrip` reads the bytes back |
| Gif.SubBlockSizes | Sources/D2Graphics/gif/AnimatedGif.swift:201-208 | every sub-block holds 1 to 255 bytes, all but the last hold 255, and together they hold exactly the given number of bytes |
| Gif.ImageDataBytes | Sources/D2Graphics/gif/AnimatedGif.swift:197-210 | the image data starts with the minimum code size and ends with the zero terminator, and is just those two bytes exactly when there are no compressed bytes |
| Gif.EmptyImageData | Sources/D2Graphics/gif/AnimatedGif.swift:197-210 | with no compressed bytes the image data is the code size and the terminator alone |
| Gif.Row | Sources/D2Graphics/gif/AnimatedGif.swift:190-192 | one row of palette indices holds the index of each pixel of that row, in column order |
| Gif.RowMajor | Sources/D2Graphics/gif/AnimatedGif.swift:189-193 | the compressor is fed width * height palette indices; `RowMajorAt` places pixel (y, x) at y * width + x |
| Gif.RowMajorAt | Sources/D2Graphics/gif/AnimatedGif.swift:189-193 | the compressor sees pixel (y, x) at position y * width + x, so rows go outer and columns inner |
| Gif.EncodedFrame | Sources/D2Graphics/gif/AnimatedGif.swift:238-243 | the frame keeps the delay it was given and the palette the quantizer returns for 256 colours with index 0xFF transparent; `RowMajorAt` gives the order of the indices handed to the compressor |
| Gif.FrameBytes | Sources/D2Graphics/gif/AnimatedGif.swift:240-243 | a frame starts with its 8-byte control extension and 10-byte image descriptor, ends with the image data's zero terminator, and with a palette of at most 256 colours is 786 bytes plus its image data |
| Gif.AnimatedGif.constructor | Sources/D2Graphics/gif/AnimatedGif.swift:26-36 | the buffer holds the header, the screen descriptor and the looping extension, and no frame yet; the loop count defaults to 0 |
| Gif.AnimatedGif.AppendByte | Sources/D2Graphics/gif/AnimatedGif.swift:73-75 | appends one byte |
| Gif.AnimatedGif.AppendShort | Sources/D2Graphics/gif/AnimatedGif.swift:77-80 | appends the two little-endian bytes of the value |
| Gif.AnimatedGif.AppendString | Sources/D2Graphics/gif/AnimatedGif.swift:82-84 | appends the UTF-8 encoding of the string |
| Gif.AnimatedGif.AppendHeader | Sources/D2Graphics/gif/AnimatedGif.swift:86-88 | appends the signature "GIF89a" |
| Gif.AnimatedGif.AppendLogicalScreenDescriptor | Sources/D2Graphics/gif/AnimatedGif.swift:90-109 | appends the canvas width and height, the packed byte 0x77, background colour 0 and aspect ratio 0 |
| Gif.AnimatedGif.AppendLoopingApplicationExtensionBlock | Sources/D2Graphics/gif/AnimatedGif.swift:111-120 | appends the Netscape looping extension with the loop count |
| Gif.AnimatedGif.AppendGraphicsControlExtension | Sources/D2Graphics/gif/AnimatedGif.swift:122-141 | appends 0x21 0xF9 0x04 0x09, the delay little-endian, 0xFF and 0x00, whatever disposal method is passed |
| Gif.AnimatedGif.AppendImageDescriptor | Sources/D2Graphics/gif/AnimatedGif.swift:143-162 | appends 0x2C, four zero bytes, width and height little-endian and 0x87 |
| Gif.AnimatedGif.AppendLocalColorTable | Sources/D2Graphics/gif/AnimatedGif.swift:164-180 | appends the colours' red, green and blue in order, then zeros up to 768 bytes |
| Gif.AnimatedGif.AppendImageDataAsLzw | Sources/D2Graphics/gif/AnimatedGif.swift:182-211 | feeds the palette indices row-major to the compressor, then appends the code size, the compressed bytes in sub-blocks and a 0x00 terminator |
| Gif.AnimatedGif.AppendSubBlocks | Sources/D2Graphics/gif/AnimatedGif.swift:199-208 | the sub-block loop extends the buffer by exactly `SubBlocks` of the compressed bytes: runs of 255 bytes and a final shorter run, each after its size byte |
| Gif.AnimatedGif.AppendFrameBlocks | Sources/D2Graphics/gif/AnimatedGif.swift:240-243 | appends the control extension, the image descriptor, the colour table and the image data, in that order |
| Gif.AnimatedGif.AppendWithQuantizer | Sources/D2Graphics/gif/AnimatedGif.swift:227-246 | fails with frameSizeMismatch exactly when the frame size differs from the canvas, and then leaves the buffer unchanged; otherwise it only extends the buffer, by the frame quantized to 256 colours with transparent index 0xFF; the buffer stays a valid stream of the parts appended |
| Gif.AnimatedGif.AppendTrailer | Sources/D2Graphics/gif/AnimatedGif.swift:248-250 | appends exactly the byte 0x3B and keeps the buffer a valid stream |
| GifReader.EncodedBlocks | Sources/D2Graphics/gif/AnimatedGif.swift:217-250 | one decoded block for each frame or trailer appended |
| GifReader.ScreenRoundTrip | Sources/D2Graphics/gif/AnimatedGif.swift:90-109 | the screen descriptor decodes to the canvas size, no global table, colour resolution 7, unsorted, size field 7, background 0 and aspect ratio 0 |
| GifReader.LoopingRoundTrip | Sources/D2Graphics/gif/AnimatedGif.swift:111-120 | the looping extension decodes to the loop count written |
| GifReader.ControlRoundTrip | Sources/D2Graphics/gif/AnimatedGif.swift:122-141 | the control extension decodes to disposal 2, no user input, a transparent colour at 0xFF and the delay written |
| GifReader.DescriptorRoundTrip | Sources/D2Graphics/gif/AnimatedGif.swift:143-162 | the image descriptor decodes to the whole canvas with a local colour table of size field 7, not interlaced, unsorted |
| GifReader.SubBlocksRoundTrip | Sources/D2Graphics/gif/AnimatedGif.swift:199-210 | the sub-block payloads and the terminator read back as exactly the compressor's bytes |
| GifReader.SubBlocksLayout | Sources/D2Graphics/gif/AnimatedGif.swift:201-208 | the sub-blocks are cut at the sizes `SubBlockSizes` gives: 255 bytes each, and the rest in the last |
| GifReader.TableAndDataRoundTrip | Sources/D2Graphics/gif/AnimatedGif.swift:164-211 | after a 768-byte table come the code size and the sub-blocks, which read back as the compressor's bytes |
| GifReader.FrameRoundTrip | Sources/D2Graphics/gif/AnimatedGif.swift:240-243 | a frame with at most 256 colours decodes to its control block, its descriptor, its padded colour table, the code size and the compressed bytes |
| GifReader.BlocksRoundTrip | Sources/D2Graphics/gif/AnimatedGif.swift:240-250 | the frames and trailers appended decode in order, each as written |
| GifReader.GifRoundTrip | Sources/D2Graphics/gif/AnimatedGif.swift:26-250 | a whole stream decodes to the canvas size, no global table, the loop count and every frame and trailer in order |
| GifReader.EncoderOutputDecodes | Sources/D2Graphics/gif/AnimatedGif.swift:17 | the buffer of an encoder decodes to the parts appended to it, as long as every palette has at most 256 colours |

## Left out

- The wikitext tokenizer (`tokenize`) and the entry point `parse(raw:)` are not modelled. The tokenizer relies on a regular-expression library that is not part of this model. The parser is modelled from a token sequence on.
- The `TokenIterator` class is not part of this model. It is modelled as the token sequence together with the position of the next token, where `peek(2)` is the token after the next.
- Tokens consumed before an error are not tracked. The error ends parsing, so the position at which it happened is not observable.
- Error messages are kept as plain text. The closing-brace message of `parseTemplate` does not include the parameters parsed so far.
- The `log.trace` and `print` calls are left out, as they are logging only.
- `LzwEncoder` is a function parameter from palette indices to a code size and the compressed bytes. Its source, the LZW algorithm of GIF89a Appendix F, is not part of this model.
- `QuantizedImage` and `UniformlyQuantizedImage` are not part of this model. The quantizer is a function parameter from an image, a colour count and a transparent index to a palette and a per-pixel index.
- `append(frame:)` is not modelled. It only fixes the quantizer to `UniformlyQuantizedImage`, which is not part of this model. `AppendWithQuantizer` takes the quantizer as a parameter instead.
- The `Phantom`/`PhantomWrapped` return value of `appendWithQuantizer` is left out. It carries no data.
- Gif.AnimatedGif.AppendWithQuantizer: models a release build. The debug `assert`s before the size check would abort a debug build instead of throwing.
- Gif.AnimatedGif.AppendWithQuantizer: requires a frame width and height below 65536. Converting a larger size to `UInt16` traps in the source.
- Gif.PackedFieldByte.Append: requires `bits <= 7` and a bit index below 8. A mask of eight bits makes the subtraction in `UInt8` overflow and trap. The bit index check is the source's debug `assert`. Unlike the size `assert`s of `appendWithQuantizer`, it is kept: every call site (AnimatedGif.swift:98-102, 131-135 and 155-160) starts a fresh byte and appends fields of at most 3 bits that add up to 8, so the bit index is below 8 before each append, and the verifier checks this at each call.
- The `UInt8` conversion of the compressor's minimum code size is folded into the compressor parameter, which returns a byte.
- The `PackedFieldByte` subscript is left out. Nothing in the encoder uses it.
- The `disposalMethod` parameter is accepted but never used. The source shadows it with `clearCanvas`, so every frame is written with disposal 2, as in the source.
- A palette of more than 256 colours is written whole, without padding, as the source does. The image descriptor still announces 256 colours, so the stream does not decode as written. `GifRoundTrip`, `BlocksRoundTrip` and `EncoderOutputDecodes` require every palette to fit (`PalettesFit`).
- The reader decodes only the blocks the encoder writes: no comment or plain-text extensions and no interlacing. It also reads blocks after a trailer. It serves as the encoder's partner, not as a general GIF decoder.
- Default arguments are kept: the constructor's `loopCount` defaults to 0 (AnimatedGif.swift:26) and `AppendWithQuantizer`'s `disposalMethod` to `ClearCanvas` (AnimatedGif.swift:227). The `.clearCanvas` default of `append(frame:)` (AnimatedGif.swift:217) goes with that method, which is not modelled.
- Tokens are compared as sequences of Unicode code points, while Swift compares strings by grapheme clusters. The difference never shows for the symbol tokens `{{`, `}}`, `[[`, `]]`, `|`, `=` and `==`, which are ASCII.
- `Image` and `Color` are plain values. The quantizer alone reads the pixels.
