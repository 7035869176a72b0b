# Spotify playlist downloader — verified model of its core

The application lets a user sign in with music-catalog API credentials, load a playlist's track
list and fetch each selected song as audio through a media-download tool. Around a desktop
interface it holds a few small algorithms, and this project models those in Dafny and proves
properties about them:

- **Credential obfuscation** (`Obfuscation`, with `Utf8` and `Hex`). A string's UTF-8 bytes are
  XORed with the 21-byte key `SpotifyDownloader2025`, repeated to cover the input, and the result
  is written as lower-case hex. Decryption reverses the two steps.
- **Credential file** (`Credentials`). `credential.cdi` holds the two obfuscated strings on two
  lines. The login screen loads the file when it opens, saves it after a login, and deletes it on
  "clear". `LoginScreen` is a class whose fields are the two text fields, the status label and the
  file's content.
- **Playlist identifier** (`PlaylistId`). This is the search for `playlist/` followed by word
  characters in the URL.
- **Playlist fetch** (`PlaylistLoading`). Track pages are requested at offsets 0, 100, 200, …
  until the first short page. Null tracks are skipped, and every other track becomes
  `"<name> - <first artist>"`. `PlaylistLoader.Run` models the thread body as a sequential method.
- **Download batch** (`Downloading`). `DownloadWorker` has an `isRunning` flag that `Stop` clears.
  `Run` starts the songs in order and checks the flag before each one. For each song it records
  the progress value and the search query `"ytsearch:" + strip(song) + " audio"`.

External services are parameters:

- The catalog API is a map from playlist identifiers to playlists. A page is the slice of a
  playlist's items for an offset and a limit of 100.
- The interface thread's calls to `stop()` are a `stopRequested` sequence: entry `i` means a stop
  came in before the check for song `i`.
- The media tool's outcome per song is a `downloadSucceeds` sequence.
- The API client's construction at login is a boolean `accepted`.
- The file on disk is an `Option<string>`.

The model follows the code in these points, which may be surprising:

- A failing download ends the whole batch with an error. It does not record the failure and go
  on to the next song.
- A stopped batch still reports completion.
- A playlist identifier may contain `_`, because the pattern is `\w`.
- A track without artists makes the whole playlist load fail. It raises `IndexError`.

## Model

| member | source | states |
|---|---|---|
| Utf8.Encode | downloader.py:20 | a string of n characters encodes to between n and 4n bytes |
| Utf8.Decode | downloader.py:29 | a successful decode yields no more characters than there were bytes |
| Utf8.DecodeEncode | downloader.py:20-29 | decoding the UTF-8 encoding of any string gives the string back |
| Hex.Encode | downloader.py:23 | the hex text of n bytes has exactly 2n characters, all in `0-9a-f` |
| Hex.Decode | downloader.py:26 | a successful decode yields half as many bytes as there are characters |
| Hex.DigitValue | downloader.py:26 | a character has a value (below 16) exactly when it is a hex digit of either case |
| Hex.DecodeEncode | downloader.py:23-26 | decoding the hex text of any byte string gives the bytes back |
| Hex.DecodePair | downloader.py:26 | two hex digits in front of decodable text decode to one more byte, high digit times 16 plus low digit |
| Hex.DecodeFails | downloader.py:26 | decoding fails if and only if the text has odd length or holds a non-hex character |
| Obfuscation.XorBound | downloader.py:22 | the XOR of two n-bit numbers has n bits, so each output element is a byte |
| Obfuscation.XorTwice | downloader.py:22 | XOR with the same key byte twice restores the byte |
| Obfuscation.XorByte | downloader.py:22 | the XOR of a byte with a key byte is a byte, and XOR with the same key byte gives the original back |
| Obfuscation.RepeatKey | downloader.py:21 | `ENCRYPTION_KEY * m` has 21·m bytes; byte i is stated by RepeatKeyAt |
| Obfuscation.RepeatKeyAt | downloader.py:17-21 | byte i of the repeated key is key byte i mod 21 |
| Obfuscation.KeyStream | downloader.py:21 | the repeated key is always longer than the input, so `zip` never truncates |
| Obfuscation.XorWithKey | downloader.py:21-22 | the keyed XOR keeps the length of its input; each byte is stated by XorWithKeyAt |
| Obfuscation.XorWithKeyAt | downloader.py:21-22 | output byte i is input byte i XOR key byte i mod 21 |
| Obfuscation.XorWithKeyTwice | downloader.py:22-28 | applying the keyed XOR twice is the identity |
| Obfuscation.EncryptCredentials | downloader.py:19-23 | the result has twice as many characters as the UTF-8 input has bytes, all lower-case hex |
| Obfuscation.DecryptCredentials | downloader.py:25-29 | a successful decrypt yields at most half as many characters as the hex text has |
| Obfuscation.DecryptEncrypt | downloader.py:19-29 | decrypting the encryption of any string gives the string back |
| Obfuscation.DecryptRejectsNonHex | downloader.py:26 | text of odd length or with a non-hex character does not decrypt |
| Obfuscation.DecryptRejectsInvalidUtf8 | downloader.py:26-29 | valid hex whose XORed bytes are not UTF-8 (`"d3"`) does not decrypt |
| Obfuscation.EncryptShape | downloader.py:19-23 | the encryption is empty exactly for the empty string and holds no whitespace or line break |
| Text.Strip | downloader.py:108 | `str.strip()` never lengthens its input; StripSpec states what it removes |
| Text.StripSpec | downloader.py:267-268 | `strip` drops a whitespace prefix and a whitespace suffix and leaves no whitespace at either end |
| Text.StripIdempotent | downloader.py:108 | stripping an already stripped string changes nothing |
| Text.Lines | downloader.py:265 | `readlines` splits the text into non-empty lines that concatenate back to it, with a line break at the end of every line but the last and nowhere else, which makes the split unique |
| Text.LinesAfterFirst | downloader.py:265 | text whose first line break follows break-free `a` reads as the line `a + "\n"` followed by the lines of the rest |
| Text.LinesOfTwo | downloader.py:265-266 | text written as `a + "\n" + b` reads back as two lines, or as one when `b` is empty |
| Credentials.SaveText | downloader.py:276-279 | the file holds the encrypted id, a line break right after it, then the encrypted secret |
| Credentials.LoadText | downloader.py:261-272 | a missing file loads as absent, and credentials are restored only from a file of at least two lines |
| Credentials.LoadLines | downloader.py:266-272 | fewer than two lines restore nothing, and credentials are restored only from at least two lines |
| Credentials.LinesRejectBadLine | downloader.py:266-272 | when the first or second stripped line is not even-length hex, the lines load as an error |
| Credentials.LoadSaved | downloader.py:261-279 | saving a pair with a non-empty secret and loading the file gives the same pair back |
| Credentials.LoadSavedEmptySecret | downloader.py:264-279 | with an empty secret the saved file has one line and loading restores nothing |
| Credentials.LoadRejectsBadLine | downloader.py:266-272 | when either of the first two stripped lines is not even-length hex, the load reports an error |
| Credentials.LoginScreen.constructor | downloader.py:259-272 | a new screen shows the credentials the file restores, otherwise empty fields, and an error label for a corrupt file |
| Credentials.LoginScreen.LoadCredentials | downloader.py:261-272 | both fields are set only when both lines decrypt; a decode error sets the label and leaves the fields alone |
| Credentials.LoginScreen.SaveCredentials | downloader.py:274-281 | the file is overwritten with the saved text of the two fields |
| Credentials.LoginScreen.Login | downloader.py:283-297 | login succeeds iff both fields are filled and the client is built; only then is the file written, and it loads back the fields |
| Credentials.LoginScreen.ClearCredentials | downloader.py:299-304 | both fields are emptied, the file is gone and the label says so |
| Credentials.LoginThenReopen | downloader.py:259-297 | after a login, reopening the application shows the same id and secret |
| PlaylistId.WordRunEnd | downloader.py:46 | the greedy token run covers only word characters and ends at a non-word character or at the end |
| PlaylistId.SearchFrom | downloader.py:46 | a match found from a position is a non-empty run of word characters |
| PlaylistId.SearchFromSpec | downloader.py:46 | the search from a position succeeds iff a match starts at or after it, and returns the token of the leftmost one |
| PlaylistId.ExtractPlaylistId | downloader.py:46-51 | an extracted identifier is a non-empty run of word characters |
| PlaylistId.ExtractPlaylistIdSpec | downloader.py:46-51 | an identifier exists iff `playlist/` plus a word character occurs; it is the maximal word run after the first such occurrence |
| PlaylistId.ExtractFromPlaylistUrl | downloader.py:46-51 | a URL `prefix + "playlist/" + token + suffix` with no earlier match yields exactly `token` |
| PlaylistLoading.Page | downloader.py:65 | a page has at most 100 items, and exactly 100 iff the offset is at least 100 items from the end |
| PlaylistLoading.Requests | downloader.py:60-75 | request k asks for offset 100·k with limit 100 |
| PlaylistLoading.SongEntry | downloader.py:69-71 | the entry is the track name, then `" - "`, then the first artist's name |
| PlaylistLoading.Entries | downloader.py:66-71 | there are never more entries than items; EntriesLength gives the exact count |
| PlaylistLoading.EntriesAppend | downloader.py:66-71 | the entries of two consecutive item lists are the two entry lists joined in order |
| PlaylistLoading.EntriesLength | downloader.py:66-71 | the number of entries equals the number of non-null tracks |
| PlaylistLoading.PagesSpec | downloader.py:60-75 | the loop reads n/100 + 1 pages, page k being the API's answer at offset 100·k; all are full except a short last one, and they join to the items in order |
| PlaylistLoading.PagesFromAt | downloader.py:64-75 | page k of the loop from an offset is the API's answer at that offset plus 100·k |
| PlaylistLoading.EntriesByPage | downloader.py:60-75 | the collected list is the concatenation of each page's entries, page after page |
| PlaylistLoading.MalformedInPage | downloader.py:66-71 | a track without artists at position k of page n, after only well-formed items, is the first such track: the playlist is not well formed and its first bad track lies in page n |
| PlaylistLoading.AppendPage | downloader.py:66-71 | one page appends its entries in order, or stops at its first track without artists |
| PlaylistLoading.FetchTracks | downloader.py:60-75 | a playlist without bad tracks yields all entries after n/100 + 1 requests; otherwise the loop fails in the page holding the first bad track |
| PlaylistLoading.PlaylistLoader.constructor | downloader.py:36-39 | the loader keeps the client and the URL it is given |
| PlaylistLoading.PlaylistLoader.Run | downloader.py:41-83 | a bad URL or unknown playlist fails before any page request; otherwise the result and requests are those of the pagination loop |
| Downloading.Percent | downloader.py:106 | the progress shown for a song is below 100 |
| Downloading.PercentBounds | downloader.py:106 | progress is 0 for the first song and below 100 for every song |
| Downloading.PercentMonotone | downloader.py:106 | progress never decreases from one song to a later one |
| Downloading.SearchQuery | downloader.py:108 | the query is `ytsearch:`, then the stripped song, then ` audio`, and nothing else |
| Downloading.SearchQueryStrips | downloader.py:108 | the query ignores surrounding whitespace, and two songs share a query iff their stripped texts are equal |
| Downloading.DownloadWorker.Schedule | downloader.py:101-118 | the first n song starts are one per song, in list order |
| Downloading.DownloadWorker.constructor | downloader.py:91-97 | a new worker keeps its job and is running |
| Downloading.DownloadWorker.Stop | downloader.py:127-128 | after `stop` the flag is cleared |
| Downloading.DownloadWorker.Run | downloader.py:99-125 | songs start in order with their progress and query; none starts after a stop; the first failure ends the batch with an error; a stopped batch reports completion; the flag stays set exactly when it was set and the batch failed or started every song |
| Downloading.DownloadAll | downloader.py:99-125 | with no stop and no failure every song starts, in order, and the batch completes |
| Downloading.StopThenRun | downloader.py:99-128 | a worker stopped before it runs starts no song |

## Left out

- Downloading.DownloadWorker.Run: the progress value is the integer `floor(100*i/n)`. The source
  computes `int(i/len*100)` in floating point, which can be one lower. For example, i = 29 and
  n = 100 gives 28.999… and so 28.
- Hex.Decode: `bytes.fromhex` also skips whitespace between byte pairs. The model does not.
- PlaylistId.ExtractPlaylistIdSpec: `\w` is restricted to ASCII letters, digits and `_`. Python
  also matches other Unicode letters and digits.
- Text.Lines: only `'\n'` ends a line. The translation of `"\r"` and `"\r\n"` that text mode
  applies on reading is not modelled.
- `Utf8.Encode`: Dafny characters are Unicode scalar values. The `UnicodeEncodeError` that a
  Python string with a lone surrogate raises on `encode` cannot occur.
- Signals: the progress text messages of both threads (`progress.emit`) are not modelled. Only
  the song-start signal of the download, its percent, and the final results are kept.
- Threads and events: `QThread`, `msleep` and `QTimer.singleShot` are not modelled. Both `run`
  bodies are sequential methods, and the interleaving with `stop()` is a parameter.
- The media tool: `yt_dlp` and its FFmpeg post-processing are an outcome per song. The model
  records the options passed but not what the tool does with them.
- The catalog API: authentication and network errors are not modelled. Neither is `sp.playlist`
  beyond "the identifier is known", nor a playlist that changes between page requests.
- Files: I/O errors on opening, reading and writing `credential.cdi` are not modelled, and
  neither are the exception texts shown in the label. The file is a value.
- The interface: the main screen, song selection, logout and all widgets are not modelled. This
  includes `stop()` having no caller in `downloader.py`.
