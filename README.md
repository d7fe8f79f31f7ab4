# Simple Live (Android): a verified model of the BiliBili client core

This project models, in Dafny, the core of the Simple Live Android app. It covers:

- the BiliBili danmaku (live chat) protocol: the 16-byte big-endian packet header, `createPacket`, and `parseDanmakuPacket` with its nested and zlib-compressed packets;
- the danmaku client that drives that protocol over a WebSocket: handshake, 30-second heartbeat, and stopping;
- `LiveMessageColor.fromInt` and `toHexString`;
- the BiliBili API envelope and its `getOrThrow`;
- the BiliBili adapter: request headers and the buvid device-fingerprint cache, and the shaping of categories, room lists, room detail, play qualities (sorted by descending `qn`) and play URLs (mcdn hosts last);
- the repository's site registry;
- the in-memory cookie jar;
- the live-room and home view models;
- the home screen's viewer-count text;
- the navigation routes;
- the typed preferences store.

Each module follows one source file.

| module | source |
|---|---|
| `DanmakuPacket`, `DanmakuClient` | `BiliBiliDanmaku.kt` |
| `LiveMessages` | `LiveMessage.kt` |
| `BiliBiliApi` | `BiliBiliApiService.kt` |
| `BiliBiliSite` | `BiliBiliSite.kt` |
| `BiliBiliModels`, `LiveModel` | the records these files exchange |
| `LiveRepository` | `LiveRepositoryImpl.kt` |
| `CookieManager` | `CookieManager.kt` |
| `LiveRoom` | `LiveRoomViewModel.kt` |
| `Home` | `HomeViewModel.kt` |
| `HomeScreen` | `formatViewCount` in `HomeScreen.kt` |
| `Navigation` | `Screen.kt` |
| `Preferences` | `PreferencesManager.kt` |

The shared modules are:

- `Wrappers`: `Option` and `Result`;
- `Errors`: the Kotlin exceptions the code raises, as values;
- `Bytes`: the JVM `Int` and `Short`, `ByteBuffer` order, and UTF-8;
- `Text`: `Int.toString(radix)`, `String.toInt(radix)`, `padStart`, `split`, `joinToString` and `contains`;
- `Seqs`: filter, partition, `takeLast` and flat-map.

How the source's forms carry over:

- Pure code becomes functions and lemmas.
- Code that updates state becomes a class. These are the danmaku client, the BiliBili adapter's fingerprint fields, the cookie jar, both view models and the preferences manager. Each method's `ensures` gives the whole new state in terms of a specification function, and lemmas state what those functions mean.
- Loops become methods proved against their specification functions. These are the parser's `while` loop, the nested `forEach` that collects play URLs, and `createPacket`'s writes into its buffer.
- Kotlin's 32-bit `Int` arithmetic is written out where it matters:
  - the parser's offset sums;
  - `toString(16)` of a negative colour;
  - `0xFF6200EE.toInt()`.

## Model

| member | source | states |
|---|---|---|
| DanmakuPacket.Encode | core/src/main/java/com/xycz/simplelive/core/danmaku/bilibili/BiliBiliDanmaku.kt:134-146 | the bytes of a frame, header then body; its length is 16 plus the body's, and what it means is stated by `EncodeHeader`, `Put`, `CreatePacket` and `EncodeReadBack` |
| DanmakuPacket.HandshakePacket | core/src/main/java/com/xycz/simplelive/core/danmaku/bilibili/BiliBiliDanmaku.kt:97-100 | the packet `sendHandshake` builds for a room; `SendHandshake` and `SentTrafficIsSilent` state what it carries |
| DanmakuPacket.HeartbeatPacket | core/src/main/java/com/xycz/simplelive/core/danmaku/bilibili/BiliBiliDanmaku.kt:127 | the packet `sendHeartbeat` builds; `HeartbeatBodyIsText` and `SentTrafficIsSilent` state what it carries |
| DanmakuPacket.EncodeHeader | core/src/main/java/com/xycz/simplelive/core/danmaku/bilibili/BiliBiliDanmaku.kt:136-142 | the header `createPacket` puts is exactly 16 bytes |
| DanmakuPacket.ReadEncodedHeader | core/src/main/java/com/xycz/simplelive/core/danmaku/bilibili/BiliBiliDanmaku.kt:158-165 | the five header fields read with `getInt`/`getShort` are the ones `putInt`/`putShort` wrote, wherever the header sits in the buffer |
| DanmakuPacket.EncodeReadBack | core/src/main/java/com/xycz/simplelive/core/danmaku/bilibili/BiliBiliDanmaku.kt:134-165 | a frame's header fields and body are read back from its bytes by the parser's reads |
| DanmakuPacket.Put | core/src/main/java/com/xycz/simplelive/core/danmaku/bilibili/BiliBiliDanmaku.kt:143 | `put(body)` writes the body after the bytes already in the buffer and leaves them unchanged |
| DanmakuPacket.CreatePacket | core/src/main/java/com/xycz/simplelive/core/danmaku/bilibili/BiliBiliDanmaku.kt:134-146 | the array `createPacket` returns holds the packet length `16 + body.size`, header length 16, protocol version 2, the operation, sequence 1 and the body, in that order |
| DanmakuPacket.HeartbeatBodyIsText | core/src/main/java/com/xycz/simplelive/core/danmaku/bilibili/BiliBiliDanmaku.kt:127 | the heartbeat body is the UTF-8 text `[object Object]`, one byte per character |
| DanmakuPacket.ParseStream | core/src/main/java/com/xycz/simplelive/core/danmaku/bilibili/BiliBiliDanmaku.kt:151-217 | `parseDanmakuPacket` of a whole buffer, as a recursive definition; `ParseFrames`, `StreamMessages`, `WholeFrames`, `SingleFrame` and `ParseDanmakuPacket` state what it returns |
| DanmakuPacket.ParseFrom | core/src/main/java/com/xycz/simplelive/core/danmaku/bilibili/BiliBiliDanmaku.kt:155-214 | one turn of the `while` loop from an offset: stop at the end or at a short header, else read the header; `ParseFromAt`, `FirstFrame` and `TruncatedTail` state its cases |
| DanmakuPacket.HeaderAt | core/src/main/java/com/xycz/simplelive/core/danmaku/bilibili/BiliBiliDanmaku.kt:158-171 | the five header reads and the `offset + packetLength > data.size` check, in wrapping or exact arithmetic; `OverflowAfterFrame` and `OverflowingHeader` state where the two differ |
| DanmakuPacket.FrameAt | core/src/main/java/com/xycz/simplelive/core/danmaku/bilibili/BiliBiliDanmaku.kt:173-213 | the `when (operation)` block for one frame and the step to `offset + packetLength`; `FrameAtEncoded`, `HeartbeatReplyOnline`, `NestedFrames`, `CompressedFrames` and `HandlePacket` state its results |
| DanmakuPacket.FrameAtEncoded | core/src/main/java/com/xycz/simplelive/core/danmaku/bilibili/BiliBiliDanmaku.kt:173-210 | the `when (operation)` block gives the same messages for a frame wherever it sits in the buffer: the online count for a heartbeat reply, the (inflated) body's messages for a message frame, nothing otherwise |
| DanmakuPacket.ParseFromAt | core/src/main/java/com/xycz/simplelive/core/danmaku/bilibili/BiliBiliDanmaku.kt:155-213 | one turn of the loop over a complete packet yields its `when` block's messages and then continues at `offset + packetLength` |
| DanmakuPacket.FirstFrame | core/src/main/java/com/xycz/simplelive/core/danmaku/bilibili/BiliBiliDanmaku.kt:155-213 | a complete frame at the current offset yields the messages it carries, then parsing resumes right after it |
| DanmakuPacket.ParseFrames | core/src/main/java/com/xycz/simplelive/core/danmaku/bilibili/BiliBiliDanmaku.kt:151-217 | a run of complete frames yields each frame's messages in order, and parsing then resumes after the last of them; the first failure wins |
| DanmakuPacket.TruncatedTail | core/src/main/java/com/xycz/simplelive/core/danmaku/bilibili/BiliBiliDanmaku.kt:155-168 | a tail too short for a header, or whose header announces more bytes than remain, ends the parse with no more messages; with `Int` sums this holds only while offset plus announced length stays below 2^31 |
| DanmakuPacket.StreamMessages | core/src/main/java/com/xycz/simplelive/core/danmaku/bilibili/BiliBiliDanmaku.kt:151-217 | a buffer of complete frames, optionally followed by a truncated one, yields exactly the frames' messages in order |
| DanmakuPacket.SingleFrame | core/src/main/java/com/xycz/simplelive/core/danmaku/bilibili/BiliBiliDanmaku.kt:151-217 | a buffer holding one frame yields what that frame carries |
| DanmakuPacket.HeartbeatReplyOnline | core/src/main/java/com/xycz/simplelive/core/danmaku/bilibili/BiliBiliDanmaku.kt:178-195 | a heartbeat reply yields one ONLINE message in white whose `data` text parses back to the big-endian count at the start of the body |
| DanmakuPacket.NestedFrames | core/src/main/java/com/xycz/simplelive/core/danmaku/bilibili/BiliBiliDanmaku.kt:197-210 | an uncompressed message frame yields the messages of the frames packed in its body |
| DanmakuPacket.CompressedFrames | core/src/main/java/com/xycz/simplelive/core/danmaku/bilibili/BiliBiliDanmaku.kt:197-209 | a protocol-version-2 message frame yields the messages of the frames its body inflates to |
| DanmakuPacket.WholeFrames | core/src/main/java/com/xycz/simplelive/core/danmaku/bilibili/BiliBiliDanmaku.kt:151-217 | a buffer made only of complete frames yields their messages in order |
| DanmakuPacket.CreatedPacketCarriesNothing | core/src/main/java/com/xycz/simplelive/core/danmaku/bilibili/BiliBiliDanmaku.kt:173-176 | a packet `createPacket` makes for any operation other than heartbeat reply or message (the handshake and the heartbeat among them) parses to no messages |
| DanmakuPacket.OverflowAfterFrame | core/src/main/java/com/xycz/simplelive/core/danmaku/bilibili/BiliBiliDanmaku.kt:168 | after a frame that carries nothing, a header whose `offset + packetLength` passes `Int.MAX_VALUE` makes the wrapped bounds check pass and the parse fail, while exact sums end it quietly |
| DanmakuPacket.OverflowingHeader | core/src/main/java/com/xycz/simplelive/core/danmaku/bilibili/BiliBiliDanmaku.kt:168 | a last header whose end lies past `Int.MAX_VALUE` fails the parse with wrapped sums and ends it quietly with exact ones |
| DanmakuPacket.LengthOverflowAfterFirstPacket | core/src/main/java/com/xycz/simplelive/core/danmaku/bilibili/BiliBiliDanmaku.kt:168 | the two-packet stream `OverflowingStream` (a 16-byte handshake reply, then a header announcing 0x7FFF_FFFF bytes) fails to parse as written |
| DanmakuPacket.ZeroLengthMessageThrows | core/src/main/java/com/xycz/simplelive/core/danmaku/bilibili/BiliBiliDanmaku.kt:168-199 | a message packet announcing length 0 with a 16-byte header fails at `copyOfRange` before the offset would stay put |
| DanmakuPacket.ParseDanmakuPacket | core/src/main/java/com/xycz/simplelive/core/danmaku/bilibili/BiliBiliDanmaku.kt:151-217 | the loop, with its recursive calls on message bodies, returns exactly the specification `ParseStream` of the buffer |
| DanmakuPacket.HandlePacket | core/src/main/java/com/xycz/simplelive/core/danmaku/bilibili/BiliBiliDanmaku.kt:173-211 | the `when (operation)` block, with its recursion into the (inflated) body, returns the specification `FrameAt` |
| Bytes.ReadInt32Bytes | core/src/main/java/com/xycz/simplelive/core/danmaku/bilibili/BiliBiliDanmaku.kt:158-165 | `getInt` reads back the `Int` that `putInt` wrote, wherever it sits |
| DanmakuClient.SendOn | core/src/main/java/com/xycz/simplelive/core/danmaku/bilibili/BiliBiliDanmaku.kt:100 | `webSocketClient?.sendBinary` appends the packet to what the open client has sent, and sends nothing without a client |
| DanmakuClient.BiliBiliDanmaku.constructor | core/src/main/java/com/xycz/simplelive/core/danmaku/bilibili/BiliBiliDanmaku.kt:24-26 | a new client has no socket and no heartbeat job |
| DanmakuClient.BiliBiliDanmaku.Start | core/src/main/java/com/xycz/simplelive/core/danmaku/bilibili/BiliBiliDanmaku.kt:45-52 | `start` uses `detail.data`, or else the room id, as the room, and opens a fresh client on the chat URL |
| DanmakuClient.BiliBiliDanmaku.OnMessage | core/src/main/java/com/xycz/simplelive/core/danmaku/bilibili/BiliBiliDanmaku.kt:54-80 | `Connected` sends the handshake for the room and starts the heartbeat; a binary frame emits exactly what `parseDanmakuPacket` yields; `Closed` and `Error` stop the heartbeat; every other event changes nothing |
| DanmakuClient.BiliBiliDanmaku.Stop | core/src/main/java/com/xycz/simplelive/core/danmaku/bilibili/BiliBiliDanmaku.kt:83-87 | `stop` cancels the heartbeat and drops the client; the client's `disconnect()` belongs to the WebSocket transport, which is left out |
| DanmakuClient.BiliBiliDanmaku.SendMessage | core/src/main/java/com/xycz/simplelive/core/danmaku/bilibili/BiliBiliDanmaku.kt:89-92 | sending chat always fails with `UnsupportedOperationException` and its fixed message |
| DanmakuClient.BiliBiliDanmaku.SendHandshake | core/src/main/java/com/xycz/simplelive/core/danmaku/bilibili/BiliBiliDanmaku.kt:97-101 | sends `createPacket(7, {"roomid":…,"uid":0,"protover":2})` on the client, if there is one |
| DanmakuClient.BiliBiliDanmaku.StartHeartbeat | core/src/main/java/com/xycz/simplelive/core/danmaku/bilibili/BiliBiliDanmaku.kt:106-113 | the heartbeat job is running afterwards |
| DanmakuClient.BiliBiliDanmaku.StopHeartbeat | core/src/main/java/com/xycz/simplelive/core/danmaku/bilibili/BiliBiliDanmaku.kt:118-121 | the heartbeat job is cancelled and cleared |
| DanmakuClient.BiliBiliDanmaku.HeartbeatTick | core/src/main/java/com/xycz/simplelive/core/danmaku/bilibili/BiliBiliDanmaku.kt:108-111 | each 30-second turn of a running heartbeat sends one heartbeat packet; a cancelled one sends nothing |
| DanmakuClient.BiliBiliDanmaku.SendHeartbeat | core/src/main/java/com/xycz/simplelive/core/danmaku/bilibili/BiliBiliDanmaku.kt:126-129 | sends `createPacket(2, "[object Object]")` on the client, if there is one |
| DanmakuClient.SentTrafficIsSilent | core/src/main/java/com/xycz/simplelive/core/danmaku/bilibili/BiliBiliDanmaku.kt:97-129 | everything the client sends (handshakes and heartbeats) parses back to no chat messages |
| LiveMessages.FromInt | core/src/main/java/com/xycz/simplelive/core/model/LiveMessage.kt:61-85 | `fromInt` as written, from the padded hex text; `FromIntBranches`, `FromIntNonNegative`, `FromIntWhite`, `FromIntPacked`, `FromIntOpaqueArgb` and `FromIntThrows` state its results |
| LiveMessages.HexTextLength | core/src/main/java/com/xycz/simplelive/core/model/LiveMessage.kt:62 | the padded hex text is the 8-digit form of a non-negative `Int`; a negative one keeps its minus sign and has 8 or 9 characters |
| LiveMessages.FromIntBranches | core/src/main/java/com/xycz/simplelive/core/model/LiveMessage.kt:62-84 | the padded text always has 8 or 9 characters, so the 4- and 6-digit branches of `fromInt` are never taken |
| LiveMessages.FromIntNonNegative | core/src/main/java/com/xycz/simplelive/core/model/LiveMessage.kt:78-82 | for a non-negative `Int`, `fromInt` gives its three low bytes as red, green and blue and drops the alpha byte |
| LiveMessages.FromIntWhite | core/src/main/java/com/xycz/simplelive/core/model/LiveMessage.kt:83 | an `Int` at or below -0x1000_0000 (9-character text) falls to the `else` branch: white |
| LiveMessages.FromIntPacked | core/src/main/java/com/xycz/simplelive/core/model/LiveMessage.kt:61-85 | packing three components into `0xRRGGBB` and calling `fromInt` gives the same colour back |
| LiveMessages.ToHexStringPairs | core/src/main/java/com/xycz/simplelive/core/model/LiveMessage.kt:92 | for components in 0..255, `toHexString` is `#` and three two-digit lower-case hex pairs |
| LiveMessages.ToHexStringLayout | core/src/main/java/com/xycz/simplelive/core/model/LiveMessage.kt:92 | the text has 7 characters, and each pair parses back as its component |
| LiveMessages.ToHexStringFromInt | core/src/main/java/com/xycz/simplelive/core/model/LiveMessage.kt:61-92 | the hex digits of `toHexString` are the packed colour, and `fromInt` of that packed value is the colour again |
| LiveMessages.OpaqueArgbText | core/src/main/java/com/xycz/simplelive/core/model/LiveMessage.kt:62 | `0xFF336699.toInt().toString(16).padStart(8, '0')` is `0-cc9967` |
| LiveMessages.FromIntOpaqueArgb | core/src/main/java/com/xycz/simplelive/core/model/LiveMessage.kt:78-82 | as written, the opaque colour `0xFF336699` converts to `(0xcc, 0x99, 0x67)`, not `(0x33, 0x66, 0x99)` |
| LiveMessages.FromIntThrows | core/src/main/java/com/xycz/simplelive/core/model/LiveMessage.kt:78-82 | as written, `fromInt(-0x1234)` throws: its padded text `000-1234` holds the field `0-` |
| LiveMessages.FromIntUnsigned | core/src/main/java/com/xycz/simplelive/core/model/LiveMessage.kt:61-85 | the corrected conversion reads the `Int` as unsigned 32-bit and gives its three low bytes, always in 0..255 |
| LiveMessages.FromIntUnsignedAgrees | core/src/main/java/com/xycz/simplelive/core/model/LiveMessage.kt:61-85 | the corrected conversion agrees with `fromInt` on every non-negative `Int` |
| LiveMessages.FromIntUnsignedOpaque | core/src/main/java/com/xycz/simplelive/core/model/LiveMessage.kt:61-85 | the corrected conversion reads opaque `0xFF336699` as `(0x33, 0x66, 0x99)` |
| BiliBiliApi.BiliBiliResponse.GetOrThrow | core/src/main/java/com/xycz/simplelive/core/platform/bilibili/BiliBiliApiService.kt:90-95 | succeeds exactly when the code is 0 and data is present, with that data; a non-zero code throws with `message`, else `msg`, else "Unknown error"; missing data throws code -1 "Data is null" |
| BiliBiliApi.CodeCheckedFirst | core/src/main/java/com/xycz/simplelive/core/platform/bilibili/BiliBiliApiService.kt:91-93 | a non-zero code fails with that code even when data is present |
| BiliBiliApi.Unwrap | core/src/main/java/com/xycz/simplelive/core/platform/bilibili/BiliBiliApiService.kt:90-95 | an exception from the HTTP call passes through; otherwise the result is the response's `getOrThrow` |
| BiliBiliSite.BuvidCookie | core/src/main/java/com/xycz/simplelive/core/platform/bilibili/BiliBiliSite.kt:52 | the fingerprint cookie text `buvid3=…;buvid4=…;`; `CookieCarriesBuvid` states how it appears in the cookie header |
| BiliBiliSite.CookieValue | core/src/main/java/com/xycz/simplelive/core/platform/bilibili/BiliBiliSite.kt:48-59 | the `cookie` header value `getHeaders` sends; `CookieCarriesBuvid` states its meaning |
| BiliBiliSite.CookieCarriesBuvid | core/src/main/java/com/xycz/simplelive/core/platform/bilibili/BiliBiliSite.kt:48-59 | the cookie header always names `buvid3` and starts with the session cookie; unless that cookie already names `buvid3`, it ends with the fingerprint `buvid3=…;buvid4=…;` |
| BiliBiliSite.Headers | core/src/main/java/com/xycz/simplelive/core/platform/bilibili/BiliBiliSite.kt:48-65 | the headers are exactly user-agent, referer and cookie, with the fixed user agent and referer |
| BiliBiliSite.BuvidAfterFetch | core/src/main/java/com/xycz/simplelive/core/platform/bilibili/BiliBiliSite.kt:71-84 | a successful fetch stores `b3`/`b4` (empty when absent); any exception, including missing data, resets both to empty; a non-zero code leaves both unchanged |
| BiliBiliSite.MapRoomItem | core/src/main/java/com/xycz/simplelive/core/platform/bilibili/BiliBiliSite.kt:158-166 | one category or recommended room mapped to a `LiveRoomItem`; `RoomItemRoundTrip` states what it keeps |
| BiliBiliSite.MapSearchItem | core/src/main/java/com/xycz/simplelive/core/platform/bilibili/BiliBiliSite.kt:122-128 | one search hit mapped to a `LiveRoomItem`; `RoomItemRoundTrip` and `SearchItems` state what it keeps |
| BiliBiliSite.MapSubCategory | core/src/main/java/com/xycz/simplelive/core/platform/bilibili/BiliBiliSite.kt:100-105 | one sub-category mapped to a `LiveSubCategory`; `SubCategoryRoundTrip` states what it keeps |
| BiliBiliSite.RoomItemRoundTrip | core/src/main/java/com/xycz/simplelive/core/platform/bilibili/BiliBiliSite.kt:158-166 | mapping a room loses nothing: the room id parses back from its decimal text and the cover from before `@400w.jpg` |
| BiliBiliSite.SubCategoryRoundTrip | core/src/main/java/com/xycz/simplelive/core/platform/bilibili/BiliBiliSite.kt:99-106 | a sub-category keeps its ids and name; its picture is present exactly when the API's is, as that picture plus `@100w.png` |
| BiliBiliSite.MapCategory | core/src/main/java/com/xycz/simplelive/core/platform/bilibili/BiliBiliSite.kt:95-108 | a category keeps its id and name, and has one child per API sub-category, in order |
| BiliBiliSite.GetCategories | core/src/main/java/com/xycz/simplelive/core/platform/bilibili/BiliBiliSite.kt:86-109 | succeeds exactly when the response unwraps; then one category per API entry, in order; otherwise the unwrap's exception |
| BiliBiliSite.SearchItems | core/src/main/java/com/xycz/simplelive/core/platform/bilibili/BiliBiliSite.kt:121-129 | a missing result or room list gives no rooms; otherwise one mapped room per API entry, in order |
| BiliBiliSite.SearchRooms | core/src/main/java/com/xycz/simplelive/core/platform/bilibili/BiliBiliSite.kt:111-135 | the search result's rooms are the mapped entries, and `hasMore` holds exactly when the page is non-empty |
| BiliBiliSite.SearchAnchors | core/src/main/java/com/xycz/simplelive/core/platform/bilibili/BiliBiliSite.kt:137-140 | anchor search always returns no anchors and no more pages |
| BiliBiliSite.MapRoomList | core/src/main/java/com/xycz/simplelive/core/platform/bilibili/BiliBiliSite.kt:158-166 | one mapped room per API entry, in order |
| BiliBiliSite.GetCategoryRooms | core/src/main/java/com/xycz/simplelive/core/platform/bilibili/BiliBiliSite.kt:142-172 | the rooms are the mapped list, and `hasMore` holds exactly when the API's `has_more` is 1 |
| BiliBiliSite.GetRecommendRooms | core/src/main/java/com/xycz/simplelive/core/platform/bilibili/BiliBiliSite.kt:174-199 | the rooms are the mapped list, and `hasMore` holds exactly when the page is non-empty; the API's `has_more` is ignored |
| BiliBiliSite.GetRoomDetail | core/src/main/java/com/xycz/simplelive/core/platform/bilibili/BiliBiliSite.kt:201-225 | succeeds exactly when the response unwraps, with the detail built from the room and anchor info |
| BiliBiliSite.RoomDetail | core/src/main/java/com/xycz/simplelive/core/platform/bilibili/BiliBiliSite.kt:206-224 | the `LiveRoomDetail` built from the room and anchor info; `RoomDetailMeaning` states its fields |
| BiliBiliSite.RoomDetailMeaning | core/src/main/java/com/xycz/simplelive/core/platform/bilibili/BiliBiliSite.kt:206-224 | the room is live exactly when `live_status` is 1; the real room id is both the id and the danmaku data and parses back; the page URL uses the requested id; a missing anchor gives empty name and avatar |
| BiliBiliSite.GetLiveStatus | core/src/main/java/com/xycz/simplelive/core/platform/bilibili/BiliBiliSite.kt:306-313 | `getLiveStatus` with any exception read as not live; `LiveStatusMeaning` states when it is true |
| BiliBiliSite.LiveStatusMeaning | core/src/main/java/com/xycz/simplelive/core/platform/bilibili/BiliBiliSite.kt:306-313 | a room reads as live exactly when the call succeeded with code 0, carried data, and `live_status` is 1; every exception reads as not live |
| BiliBiliSite.GetSuperChatMessages | core/src/main/java/com/xycz/simplelive/core/platform/bilibili/BiliBiliSite.kt:315-318 | always empty |
| BiliBiliSite.QualityMap | core/src/main/java/com/xycz/simplelive/core/platform/bilibili/BiliBiliSite.kt:240-242 | every described `qn` has a label, and every label comes from a description |
| BiliBiliSite.QualityMapLastWins | core/src/main/java/com/xycz/simplelive/core/platform/bilibili/BiliBiliSite.kt:240-242 | `associate` labels a `qn` with the description of its last occurrence |
| BiliBiliSite.AcceptQn | core/src/main/java/com/xycz/simplelive/core/platform/bilibili/BiliBiliSite.kt:245-248 | the accepted list comes from the first codec of the first format of the first stream; it is empty when any of these is missing |
| BiliBiliSite.InsertSorts | core/src/main/java/com/xycz/simplelive/core/platform/bilibili/BiliBiliSite.kt:256 | one insertion step keeps the list sorted by descending `sort` and adds exactly that element |
| BiliBiliSite.SortDescending | core/src/main/java/com/xycz/simplelive/core/platform/bilibili/BiliBiliSite.kt:256 | `sortedByDescending { it.sort }` by insertion; `InsertSorts` and `SortDescendingSorts` state that it sorts and permutes |
| BiliBiliSite.SortDescendingSorts | core/src/main/java/com/xycz/simplelive/core/platform/bilibili/BiliBiliSite.kt:256 | `sortedByDescending { it.sort }` yields a permutation of its input sorted by descending `sort` |
| BiliBiliSite.Qualities | core/src/main/java/com/xycz/simplelive/core/platform/bilibili/BiliBiliSite.kt:250-255 | one quality per accepted `qn`, in order, labelled from the map or as unknown, with `qn` as data text and sort key |
| BiliBiliSite.GetPlayQualities | core/src/main/java/com/xycz/simplelive/core/platform/bilibili/BiliBiliSite.kt:227-257 | succeeds exactly when the response unwraps; the result is the accepted qualities sorted by descending `qn` |
| BiliBiliSite.PlayQualitiesMeaning | core/src/main/java/com/xycz/simplelive/core/platform/bilibili/BiliBiliSite.kt:240-256 | each returned quality comes from the accepted list and is labelled from the descriptions; every accepted `qn` has its quality in the result; the result is sorted descending |
| BiliBiliSite.FlattenUrls | core/src/main/java/com/xycz/simplelive/core/platform/bilibili/BiliBiliSite.kt:277-286 | the candidate URLs of the nested `forEach` loops, as a definition; `FlattenUrlsLength` and `CollectUrls` state its meaning |
| BiliBiliSite.FlattenUrlsLength | core/src/main/java/com/xycz/simplelive/core/platform/bilibili/BiliBiliSite.kt:277-286 | the candidate list has exactly one URL per `url_info` entry, across all streams, formats and codecs |
| BiliBiliSite.McdnLast | core/src/main/java/com/xycz/simplelive/core/platform/bilibili/BiliBiliSite.kt:289-295 | the list `sortWith` leaves: non-mcdn URLs, then mcdn URLs, each in order; `McdnLastPermutes`, `McdnLastSorts` and `McdnLastUnique` state its meaning |
| BiliBiliSite.McdnLastPermutes | core/src/main/java/com/xycz/simplelive/core/platform/bilibili/BiliBiliSite.kt:289-295 | the mcdn ordering is a permutation of the candidates |
| BiliBiliSite.McdnLastSorts | core/src/main/java/com/xycz/simplelive/core/platform/bilibili/BiliBiliSite.kt:289-295 | no mcdn URL precedes a non-mcdn one, and each group keeps its original order (the sort is stable) |
| BiliBiliSite.McdnLastUnique | core/src/main/java/com/xycz/simplelive/core/platform/bilibili/BiliBiliSite.kt:289-295 | any list ordered that way that keeps each group's order is exactly `McdnLast` |
| BiliBiliSite.AddCodecUrls | core/src/main/java/com/xycz/simplelive/core/platform/bilibili/BiliBiliSite.kt:279-284 | the inner loop appends `host + base_url + extra` for each `url_info` of the codec |
| BiliBiliSite.AddFormatUrls | core/src/main/java/com/xycz/simplelive/core/platform/bilibili/BiliBiliSite.kt:278-285 | appends the URLs of each codec of the format, in order |
| BiliBiliSite.AddStreamUrls | core/src/main/java/com/xycz/simplelive/core/platform/bilibili/BiliBiliSite.kt:277-286 | appends the URLs of each format of the stream, in order |
| BiliBiliSite.CollectUrls | core/src/main/java/com/xycz/simplelive/core/platform/bilibili/BiliBiliSite.kt:275-286 | the nested loops produce exactly the flattened candidate list |
| BiliBiliSite.PlayHeaders | core/src/main/java/com/xycz/simplelive/core/platform/bilibili/BiliBiliSite.kt:299-302 | the two playback headers, `referer` and `user-agent`; `GetPlayUrls` states that they are returned |
| BiliBiliSite.PlayUrls | core/src/main/java/com/xycz/simplelive/core/platform/bilibili/BiliBiliSite.kt:272-303 | `getPlayUrls` as a definition over the response; `GetPlayUrls` is proved equal to it |
| BiliBiliSite.GetPlayUrls | core/src/main/java/com/xycz/simplelive/core/platform/bilibili/BiliBiliSite.kt:259-304 | returns the candidates with mcdn URLs last and the two playback headers, or the unwrap's exception |
| BiliBiliSite.BiliBiliSite.constructor | core/src/main/java/com/xycz/simplelive/core/platform/bilibili/BiliBiliSite.kt:26-28 | a new adapter has empty `buvid3`, `buvid4` and cookie |
| BiliBiliSite.BiliBiliSite.GetDanmaku | core/src/main/java/com/xycz/simplelive/core/platform/bilibili/BiliBiliSite.kt:36-38 | returns a fresh, unconnected chat client |
| BiliBiliSite.BiliBiliSite.GetBuvidInfo | core/src/main/java/com/xycz/simplelive/core/platform/bilibili/BiliBiliSite.kt:71-84 | the fingerprint becomes `BuvidAfterFetch` of what the API returned or threw; the session cookie is untouched |
| BiliBiliSite.BiliBiliSite.GetHeaders | core/src/main/java/com/xycz/simplelive/core/platform/bilibili/BiliBiliSite.kt:43-66 | the fingerprint is fetched only while `buvid3` is empty, and the headers are composed from the resulting state |
| LiveRepository.GetSite | app/src/main/java/com/xycz/simplelive/data/repository/LiveRepositoryImpl.kt:120-122 | succeeds exactly for "bilibili"; any other id throws `IllegalArgumentException("Unknown site: " + id)` |
| LiveRepository.GetAllSites | app/src/main/java/com/xycz/simplelive/data/repository/LiveRepositoryImpl.kt:28-35 | lists bilibili, douyu, huya and douyin, in that order |
| LiveRepository.ListedButUnregistered | app/src/main/java/com/xycz/simplelive/data/repository/LiveRepositoryImpl.kt:20-35 | of the four platforms listed, only the first has an adapter; the other three always fail |
| LiveRepository.Dispatch | app/src/main/java/com/xycz/simplelive/data/repository/LiveRepositoryImpl.kt:37-115 | `runCatching { getSite(id).op() }` is the adapter's result for "bilibili" and the unknown-site failure otherwise |
| LiveRepository.GetCategories | app/src/main/java/com/xycz/simplelive/data/repository/LiveRepositoryImpl.kt:37-42 | `getCategories` through `runCatching`; `RepositoryDispatch` states its result for each site id |
| LiveRepository.GetRecommendRooms | app/src/main/java/com/xycz/simplelive/data/repository/LiveRepositoryImpl.kt:44-52 | `getRecommendRooms` through `runCatching`; `RepositoryDispatch` states its result for each site id |
| LiveRepository.GetCategoryRooms | app/src/main/java/com/xycz/simplelive/data/repository/LiveRepositoryImpl.kt:54-63 | `getCategoryRooms` through `runCatching`; `RepositoryDispatch` states its result for each site id |
| LiveRepository.SearchRooms | app/src/main/java/com/xycz/simplelive/data/repository/LiveRepositoryImpl.kt:65-74 | `searchRooms` through `runCatching`; `RepositoryDispatch` states its result for each site id |
| LiveRepository.GetRoomDetail | app/src/main/java/com/xycz/simplelive/data/repository/LiveRepositoryImpl.kt:76-84 | `getRoomDetail` through `runCatching`; `RepositoryDispatch` states its result for each site id |
| LiveRepository.GetPlayQualities | app/src/main/java/com/xycz/simplelive/data/repository/LiveRepositoryImpl.kt:86-94 | `getPlayQualities` through `runCatching`; `RepositoryDispatch` states its result for each site id |
| LiveRepository.GetLiveStatus | app/src/main/java/com/xycz/simplelive/data/repository/LiveRepositoryImpl.kt:107-115 | `getLiveStatus` through `runCatching`; `RepositoryDispatch` states that only the lookup can fail |
| LiveRepository.GetPlayUrls | app/src/main/java/com/xycz/simplelive/data/repository/LiveRepositoryImpl.kt:96-105 | the adapter's URL collection runs only after a successful lookup |
| LiveRepository.RepositoryDispatch | app/src/main/java/com/xycz/simplelive/data/repository/LiveRepositoryImpl.kt:37-115 | every repository operation fails with the unknown-site error for an unregistered id and equals the adapter's result for "bilibili"; `getLiveStatus` can fail only in the lookup |
| CookieManager.Saved | core/src/main/java/com/xycz/simplelive/core/network/CookieManager.kt:16-22 | a host's list after `removeAll` then `addAll`; `SavedMembership`, `SavedReplaces`, `SavedUniqueKeys` and `LoadAfterSave` state its meaning |
| CookieManager.SavedMembership | core/src/main/java/com/xycz/simplelive/core/network/CookieManager.kt:14-23 | after a save, a cookie is held exactly when it was stored and no incoming cookie shares its name and domain, or it is incoming and not expired |
| CookieManager.SavedReplaces | core/src/main/java/com/xycz/simplelive/core/network/CookieManager.kt:18-21 | an incoming cookie removes every stored one with its name and domain, even when it has itself expired |
| CookieManager.SavedUniqueKeys | core/src/main/java/com/xycz/simplelive/core/network/CookieManager.kt:14-23 | saving keeps a host's (name, domain) keys unique when the response's own keys are |
| CookieManager.Load | core/src/main/java/com/xycz/simplelive/core/network/CookieManager.kt:29-31 | a request gets exactly the stored cookies that have not expired, where expiring exactly now is still valid |
| CookieManager.LoadAfterSave | core/src/main/java/com/xycz/simplelive/core/network/CookieManager.kt:14-32 | loading right after a save returns the valid survivors, then the valid incoming cookies in the response's order |
| CookieManager.SimpleCookieJar.constructor | core/src/main/java/com/xycz/simplelive/core/network/CookieManager.kt:12 | the store starts empty |
| CookieManager.SimpleCookieJar.SaveFromResponse | core/src/main/java/com/xycz/simplelive/core/network/CookieManager.kt:14-23 | only the host's list changes, and it becomes `Saved` of its old list |
| CookieManager.SimpleCookieJar.LoadForRequest | core/src/main/java/com/xycz/simplelive/core/network/CookieManager.kt:25-32 | an unknown host gets no cookies; otherwise exactly the host's cookies that have not expired |
| CookieManager.SimpleCookieJar.Clear | core/src/main/java/com/xycz/simplelive/core/network/CookieManager.kt:37-39 | every host is dropped |
| CookieManager.SimpleCookieJar.ClearForHost | core/src/main/java/com/xycz/simplelive/core/network/CookieManager.kt:44-46 | only that host's entry is removed |
| CookieManager.SimpleCookieJar.GetAllCookies | core/src/main/java/com/xycz/simplelive/core/network/CookieManager.kt:51-53 | the result has exactly the store's hosts, each with the store's list for it |
| LiveRoom.LoadingStarted | app/src/main/java/com/xycz/simplelive/ui/liveroom/LiveRoomViewModel.kt:40 | loading starts with the error cleared; nothing else changes |
| LiveRoom.DetailLoaded | app/src/main/java/com/xycz/simplelive/ui/liveroom/LiveRoomViewModel.kt:42-64 | loading stops; a success shows the detail and its live status, and asks for qualities exactly when live; a failure shows the message or "Failed to load room" and keeps the old detail |
| LiveRoom.QualitiesLoaded | app/src/main/java/com/xycz/simplelive/ui/liveroom/LiveRoomViewModel.kt:73-91 | a success lists the qualities, selects the first, and asks for that quality's URLs exactly when the list is non-empty; a failure only sets "Failed to load qualities: " plus the message, with a missing message shown as "null" |
| LiveRoom.PlayUrlsLoaded | app/src/main/java/com/xycz/simplelive/ui/liveroom/LiveRoomViewModel.kt:100-114 | a success plays the first URL ("" if none) with the returned headers and selects the quality, changing nothing else; a failure only sets the error |
| LiveRoom.DanmakuToggled | app/src/main/java/com/xycz/simplelive/ui/liveroom/LiveRoomViewModel.kt:129-131 | flips `showDanmaku` and nothing else |
| LiveRoom.ControlsToggled | app/src/main/java/com/xycz/simplelive/ui/liveroom/LiveRoomViewModel.kt:136-138 | flips `showControls` and nothing else |
| LiveRoom.AddMessage | app/src/main/java/com/xycz/simplelive/ui/liveroom/LiveRoomViewModel.kt:150-154 | the buffer never exceeds 100 messages and ends with the new one; below 100 it grows by one, otherwise the oldest message drops off |
| LiveRoom.AddAllKeepsLast | app/src/main/java/com/xycz/simplelive/ui/liveroom/LiveRoomViewModel.kt:150-154 | after any number of arrivals, the buffer is exactly the last 100 of all messages |
| LiveRoom.HappyPath | app/src/main/java/com/xycz/simplelive/ui/liveroom/LiveRoomViewModel.kt:38-116 | a live room whose detail, qualities and URLs all load ends live, not loading, without error, on the first quality and playing its first URL |
| LiveRoom.LiveRoomViewModel.constructor | app/src/main/java/com/xycz/simplelive/ui/liveroom/LiveRoomViewModel.kt:22-33 | the view model starts loading the room detail straight away, with no messages |
| LiveRoom.LiveRoomViewModel.LoadRoomDetail | app/src/main/java/com/xycz/simplelive/ui/liveroom/LiveRoomViewModel.kt:38-41 | the state becomes `LoadingStarted` of the old state |
| LiveRoom.LiveRoomViewModel.Refresh | app/src/main/java/com/xycz/simplelive/ui/liveroom/LiveRoomViewModel.kt:143-145 | `refresh` loads the room detail again |
| LiveRoom.LiveRoomViewModel.OnRoomDetail | app/src/main/java/com/xycz/simplelive/ui/liveroom/LiveRoomViewModel.kt:42-64 | the state and the follow-up qualities request are `DetailLoaded`'s |
| LiveRoom.LiveRoomViewModel.OnPlayQualities | app/src/main/java/com/xycz/simplelive/ui/liveroom/LiveRoomViewModel.kt:71-93 | the state is `QualitiesLoaded`'s; the URLs are requested for the same detail and the first quality exactly when there is one |
| LiveRoom.LiveRoomViewModel.OnPlayUrls | app/src/main/java/com/xycz/simplelive/ui/liveroom/LiveRoomViewModel.kt:98-116 | the state is `PlayUrlsLoaded`'s for the requested quality |
| LiveRoom.LiveRoomViewModel.SelectQuality | app/src/main/java/com/xycz/simplelive/ui/liveroom/LiveRoomViewModel.kt:121-124 | reloads URLs for the shown detail and the chosen quality; with no detail it does nothing |
| LiveRoom.LiveRoomViewModel.ToggleDanmaku | app/src/main/java/com/xycz/simplelive/ui/liveroom/LiveRoomViewModel.kt:129-131 | the state becomes `DanmakuToggled`; the messages are unchanged |
| LiveRoom.LiveRoomViewModel.ToggleControls | app/src/main/java/com/xycz/simplelive/ui/liveroom/LiveRoomViewModel.kt:136-138 | the state becomes `ControlsToggled`; the messages are unchanged |
| LiveRoom.LiveRoomViewModel.AddDanmakuMessage | app/src/main/java/com/xycz/simplelive/ui/liveroom/LiveRoomViewModel.kt:150-154 | the messages become `AddMessage` of the old buffer; the UI state is unchanged |
| Home.SiteInfos | app/src/main/java/com/xycz/simplelive/ui/home/HomeViewModel.kt:43 | one `SiteInfo` per site model, with its id and name, in order |
| Home.RoomsLoadStep | app/src/main/java/com/xycz/simplelive/ui/home/HomeViewModel.kt:81-88 | nothing happens with no sites or an index at or past the end; a negative index throws `IndexOutOfBoundsException`; otherwise the selected site's rooms are fetched |
| Home.RoomsLoadingStarted | app/src/main/java/com/xycz/simplelive/ui/home/HomeViewModel.kt:91 | loading starts with the error cleared; nothing else changes |
| Home.RoomsLoaded | app/src/main/java/com/xycz/simplelive/ui/home/HomeViewModel.kt:93-110 | loading stops; a success shows the rooms and `hasMore`; a failure shows the message or "Unknown error" and keeps the rooms |
| Home.Find | app/src/main/java/com/xycz/simplelive/ui/home/HomeViewModel.kt:61 | `find { it.id == id }`; a found site has the id, and `FindFails` and `FindFirst` state when and which |
| Home.Reorder | app/src/main/java/com/xycz/simplelive/ui/home/HomeViewModel.kt:60-62 | `sortedIds.mapNotNull { … find … }`; `ReorderFollowsPreference` and `ReorderByOwnIds` state its meaning |
| Home.FindFails | app/src/main/java/com/xycz/simplelive/ui/home/HomeViewModel.kt:61 | `find` by id fails exactly when no site has that id |
| Home.FindFirst | app/src/main/java/com/xycz/simplelive/ui/home/HomeViewModel.kt:61 | `find` returns the first site with the id |
| Home.ReorderFollowsPreference | app/src/main/java/com/xycz/simplelive/ui/home/HomeViewModel.kt:60-62 | the reordered sites' ids are the preference's ids with the unknown ones skipped, and each entry is one of the current sites |
| Home.ReorderByOwnIds | app/src/main/java/com/xycz/simplelive/ui/home/HomeViewModel.kt:60-62 | ordering distinct sites by their own ids leaves them as they are |
| Home.ApplySiteOrder | app/src/main/java/com/xycz/simplelive/ui/home/HomeViewModel.kt:56-66 | with no sites nothing changes; otherwise the result is never empty, it is the reordering whenever that is non-empty, and the current list otherwise |
| Home.ApplySiteOrderMeaning | app/src/main/java/com/xycz/simplelive/ui/home/HomeViewModel.kt:56-66 | the sites stay as they are exactly when there are none or no preference id is known; otherwise their ids are the known preference ids in the preference's order, each resolved to a current site |
| Home.AllSitesInfo | app/src/main/java/com/xycz/simplelive/ui/home/HomeViewModel.kt:40-47 | the platforms offered have distinct ids in the order bilibili, douyu, huya, douyin, and the first room load fetches bilibili |
| Home.DefaultPreferenceKeepsOrder | app/src/main/java/com/xycz/simplelive/ui/home/HomeViewModel.kt:54-66 | with no site order stored, applying the default preference keeps the repository's order |
| Home.HomeViewModel.constructor | app/src/main/java/com/xycz/simplelive/ui/home/HomeViewModel.kt:24-29 | the view model starts with the default state and no sites |
| Home.HomeViewModel.LoadRooms | app/src/main/java/com/xycz/simplelive/ui/home/HomeViewModel.kt:81-92 | the step is `RoomsLoadStep` of the sites and selected index; loading starts only when a fetch is launched |
| Home.HomeViewModel.LoadSites | app/src/main/java/com/xycz/simplelive/ui/home/HomeViewModel.kt:40-49 | the sites become the models' `SiteInfo`s; a room load follows exactly when there is at least one |
| Home.HomeViewModel.SelectSite | app/src/main/java/com/xycz/simplelive/ui/home/HomeViewModel.kt:73-76 | records the index even when it is out of range, then attempts a room load for it |
| Home.HomeViewModel.Refresh | app/src/main/java/com/xycz/simplelive/ui/home/HomeViewModel.kt:117-119 | `refresh` is `loadRooms` |
| Home.HomeViewModel.OnRecommendRooms | app/src/main/java/com/xycz/simplelive/ui/home/HomeViewModel.kt:93-110 | the state becomes `RoomsLoaded` of the result; the sites are unchanged |
| Home.HomeViewModel.LoadSiteOrder | app/src/main/java/com/xycz/simplelive/ui/home/HomeViewModel.kt:54-68 | the sites become `ApplySiteOrder` of the preference ids; the UI state is unchanged |
| HomeScreen.FormatViewCount | app/src/main/java/com/xycz/simplelive/ui/home/HomeScreen.kt:199-205 | `formatViewCount`; `ViewCountShown` and `ViewCountLine` state the text it gives |
| HomeScreen.ViewCountShown | app/src/main/java/com/xycz/simplelive/ui/home/HomeScreen.kt:199-205 | the text is a decimal number followed by the unit's suffix, and that number is the count rounded down to whole units of ten thousand (万), a thousand (k) or one; counts of 1000 or more show at least 1 |
| HomeScreen.ViewCountLine | app/src/main/java/com/xycz/simplelive/ui/home/HomeScreen.kt:184-190 | the count line appears exactly when the viewer count is positive |
| Navigation.Route | app/src/main/java/com/xycz/simplelive/ui/navigation/Screen.kt:6-31 | each screen's route leads back to that screen and holds no '/' |
| Navigation.RoutesDistinct | app/src/main/java/com/xycz/simplelive/ui/navigation/Screen.kt:6-31 | no two screens share a route |
| Navigation.TwoParametersSplit | app/src/main/java/com/xycz/simplelive/ui/navigation/Screen.kt:38-44 | a route with two parameters splits at '/' into the route and both values, when neither holds a '/' |
| Navigation.BuildLiveRoomRoute | app/src/main/java/com/xycz/simplelive/ui/navigation/Screen.kt:38-40 | `LiveRoom.buildRoute`; `LiveRoomRouteSplits` states that its segments give the site id and room id back |
| Navigation.BuildCategoryDetailRoute | app/src/main/java/com/xycz/simplelive/ui/navigation/Screen.kt:42-44 | `CategoryDetail.buildRoute`; `CategoryDetailRouteSplits` states that its segments give the site id and category id back |
| Navigation.LiveRoomRouteSplits | app/src/main/java/com/xycz/simplelive/ui/navigation/Screen.kt:38-40 | the live-room route's segments are `live_room`, the site id and the room id |
| Navigation.CategoryDetailRouteSplits | app/src/main/java/com/xycz/simplelive/ui/navigation/Screen.kt:42-44 | the category-detail route's segments are `category_detail`, the site id and the category id |
| Preferences.KeyName | app/src/main/java/com/xycz/simplelive/data/preferences/PreferencesManager.kt:156-181 | each setting's key name names that setting alone |
| Preferences.KeyNamesDistinct | app/src/main/java/com/xycz/simplelive/data/preferences/PreferencesManager.kt:156-181 | no two settings share a key name |
| Preferences.Default | app/src/main/java/com/xycz/simplelive/data/preferences/PreferencesManager.kt:19-87 | every default has the key's value type |
| Preferences.Read | app/src/main/java/com/xycz/simplelive/data/preferences/PreferencesManager.kt:19-87 | an unset key reads as its default; a stored value of the key's type is returned; a value of another type throws `ClassCastException`, and only then |
| Preferences.ReadAfterWrite | app/src/main/java/com/xycz/simplelive/data/preferences/PreferencesManager.kt:90-152 | after a setter writes a key, reading it gives the value written, and every other setting reads as before |
| Preferences.WriteKeepsWellTyped | app/src/main/java/com/xycz/simplelive/data/preferences/PreferencesManager.kt:90-152 | writes through the setters keep every stored value of its key's type |
| Preferences.WellTypedReads | app/src/main/java/com/xycz/simplelive/data/preferences/PreferencesManager.kt:19-87 | no read from a well-typed store throws |
| Preferences.ReadSiteSort | app/src/main/java/com/xycz/simplelive/data/preferences/PreferencesManager.kt:70-73 | the site order has at least one entry, and fails only when the stored value has the wrong type |
| Preferences.SiteSortValue | app/src/main/java/com/xycz/simplelive/data/preferences/PreferencesManager.kt:139 | the value `setSiteSort` stores; `SiteSortRoundTrip` and `EmptySiteSortReadsOneEmptyId` state how it reads back |
| Preferences.SiteSortRoundTrip | app/src/main/java/com/xycz/simplelive/data/preferences/PreferencesManager.kt:138-140 | a non-empty site order with no comma in any id, written and read back, is the same order |
| Preferences.EmptySiteSortReadsOneEmptyId | app/src/main/java/com/xycz/simplelive/data/preferences/PreferencesManager.kt:138-140 | an empty site order is written as "" and reads back as one empty id, not as no ids |
| Preferences.DefaultSiteOrder | app/src/main/java/com/xycz/simplelive/data/preferences/PreferencesManager.kt:70-73 | with nothing stored, the site order is bilibili, douyu, huya, douyin |
| Preferences.PreferencesManager.constructor | app/src/main/java/com/xycz/simplelive/data/preferences/PreferencesManager.kt:15-17 | the manager reads the given store |
| Preferences.PreferencesManager.Set | app/src/main/java/com/xycz/simplelive/data/preferences/PreferencesManager.kt:90-152 | a setter writes exactly its own key |
| Preferences.PreferencesManager.Get | app/src/main/java/com/xycz/simplelive/data/preferences/PreferencesManager.kt:19-87 | a setting's flow at the store's current contents; `Read`, `ReadAfterWrite` and `WellTypedReads` state its value |
| Preferences.PreferencesManager.GetSiteSort | app/src/main/java/com/xycz/simplelive/data/preferences/PreferencesManager.kt:70-73 | the `siteSort` flow at the store's current contents; `ReadSiteSort`, `SiteSortRoundTrip` and `DefaultSiteOrder` state its value |
| Preferences.PreferencesManager.SetSiteSort | app/src/main/java/com/xycz/simplelive/data/preferences/PreferencesManager.kt:138-140 | `setSiteSort` stores the ids joined with commas under `site_sort` |

## Left out

- The WebSocket, OkHttp, Retrofit and JSON decoding are outside the model. An API call is a parameter holding the decoded response or the exception it threw. Request parameters and the URL paths in the annotations are not modelled.
- Coroutines, `Flow` and `StateFlow` are outside the model. Each coroutine is split into the step that launches it and a method that applies its result; the caller supplies the order of events. `collectLatest` cancellation and races between concurrent loads are not captured.
- `decompressData` (zlib via `java.util.zip.Inflater`) is a function parameter `Inflate`; it returns `None` when inflation throws or never finishes.
- DanmakuPacket.ParseStream: the `depth` parameter bounds how many compressed layers are opened. Inflated output has no size bound, so the source's recursion has no measure. Past the bound the parse fails with `DepthExhausted`, which the source never does.
- DanmakuPacket.ParseStream: for a packet length of zero or less the `when` block still runs first, as in the source, so a message packet whose body range ends before it starts fails there (`copyOfRange` throws). When that block does not throw, the source loops forever (length zero) or moves the offset backwards (negative length); the model stops with `NoProgress` instead.
- DanmakuPacket.ParseStream: which JVM exception is thrown (`IndexOutOfBoundsException`, `IllegalArgumentException`, `StackOverflowError`) is not modelled. Only the `Fault` kind is.
- DanmakuPacket.CreatePacket: requires `16 + body.size` to fit in an `Int`; the `ByteBuffer` cannot hold more.
- DanmakuClient.BiliBiliDanmaku.HeartbeatTick: time is not modelled. One call stands for one elapsed 30-second delay.
- DanmakuClient.BiliBiliDanmaku.Start: a second `start` while a heartbeat runs leaks the old job in the source. The model only records that a job runs.
- The `LiveSite` and `LiveDanmaku` interfaces are not modelled as interfaces. The repository dispatches on its one registered adapter directly.
- `toComposeColor` (a Compose `Color`) is left out as UI.
- Floating-point settings keep their IEEE-754 bit patterns (for example 0.5f as 0x3F00_0000) and are never computed with.
- `ClassCastException`'s message text is not modelled.
- DataStore's asynchronous reads and edits are modelled as reads and updates of one map.
- CookieManager.SimpleCookieJar.SaveFromResponse: the source reads the clock once per incoming cookie inside the filter; the model reads it once per save, as `now`.
- CookieManager.SimpleCookieJar.GetAllCookies: the source's `toMap()` copies only the map; the per-host lists it returns are the store's own mutable lists, so a later `saveFromResponse` for a host changes an earlier result too. The model returns values and does not capture this aliasing.
- DanmakuClient.BiliBiliDanmaku.Stop: the `webSocketClient?.disconnect()` call is left out with the WebSocket transport; the model only drops the client.
- Home.HomeViewModel.LoadSiteOrder: the source's `preferencesManager` parameter is commented out (HomeViewModel.kt line 19), so `loadSiteOrder` does not compile as written and is never called. It is modelled with the ids of one `siteSort` value as a parameter.
- Compose UI, Room, Hilt dependency injection, the other screens, the navigation graph and the database entities are left out.
- BiliBiliSite.BiliBiliSite.GetHeaders: the source never calls `getHeaders` from any operation, so the model does not use the headers in any request.
- LiveRoom.LiveRoomUiState: `isPlaying` is never changed by the view model, and nothing in the model changes it.
- HomeScreen.ViewCountLine: its precondition restates the `Int` type of `LiveRoomItem.online`, which the model keeps as an unbounded integer.
- `String.toInt(radix)` overflow is not modelled: a text whose value exceeds the `Int` range parses to that value instead of throwing. The model only parses texts it wrote from an `Int`, which cannot overflow.
- BiliBiliSite.McdnLast: `sortWith` with this comparator is modelled by its result, the stable partition TimSort produces. The sort's steps are not modelled.

## Findings

| source | as written | input that shows it | evidently intended | confidence | as-written member | corrected member |
|---|---|---|---|---|---|---|
| core/src/main/java/com/xycz/simplelive/core/model/LiveMessage.kt:61-85 | `intColor.toString(16)` of a negative `Int` keeps the minus sign, so the padded text has a '-' in it | `0xFF336699.toInt()` (opaque `#336699`) converts to `(0xcc, 0x99, 0x67)`; `-0x1234` throws `NumberFormatException` | read the `Int` as unsigned 32-bit and take its three low bytes, giving `(0x33, 0x66, 0x99)` | high, not executed | LiveMessages.FromIntOpaqueArgb | LiveMessages.FromIntUnsigned |
| core/src/main/java/com/xycz/simplelive/core/danmaku/bilibili/BiliBiliDanmaku.kt:168 | `offset + packetLength > data.size` is computed in `Int` and wraps | a 16-byte handshake reply followed by a header announcing 0x7FFF_FFFF bytes: the sum wraps negative, the check passes and the next read throws | a packet that runs past the buffer ends the parse, as it does when the sum does not wrap | medium, not executed | DanmakuPacket.LengthOverflowAfterFirstPacket | DanmakuPacket.TruncatedTail |
