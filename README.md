# Verseen: lyrics scraping and interpretation extraction, modelled in Dafny

Verseen looks up a song on the Genius catalogue, scrapes its lyrics from the
song's web page and asks a language model for an interpretation of them. This
project models and proves properties of the part of that pipeline that is
pure logic:

- **Best match** (`LyricsScraper.extract_song_info`). Given a decoded search
  response, build one record per hit whose `type` is `"song"`. The record holds
  the id, the title, the primary artist's name, the full title, the URL, the
  release date (default `"Unknown"`) and the page views (default `0`). Return
  the first such record, or `None`.
- **Container selection and accumulation**
  (`LyricsScraper.get_lyrics_from_genius_url`, after the page is parsed). Use
  the containers of the primary selector, or failing that those of the
  fallback selector; raise "Lyrics container not found" if both are empty.
  Append each container's stripped text and a newline, then clean the
  stripped result.
- **Cleaning** (`LyricsScraper.__clean_lyrics`). Split at `'\n'`, strip every
  line, drop the lines that are then empty, join the rest with `'\n'`, and
  replace every run of three or more newlines by two.
- **Interpretation extraction** (the return expression of
  `VerseenAI.get_response`). From a chat-completion response, take the
  argument string of the first tool call of the first choice, or `None` when
  there is no choice or that choice made no tool call.

Files:

- `wrappers.dfy`: `Option` and `Result`.
- `py_str.dfy` (module `PyStr`): the Python `str` operations the cleaner is
  built on: `strip()`, using Python 3's full `isspace()` set, `split('\n')`
  and `'\n'.join`.
- `rapid_api.dfy` (module `LyricsScraper`): the scraper.
  - The three loops of the source are methods (`CleanLyrics`,
    `GetLyricsFromContainers`, `ExtractSongInfo`), proved against the
    functions `Clean`, `Accumulate` and `SelectBestMatch`.
  - Lemmas about those functions state what the cleaned lyrics are.
- `verseen_ai.dfy` (module `VerseenAI`): the tool-call extraction.

The main results:

- The cleaned text never has two adjacent newlines, so the
  `\n{3,}` substitution never changes anything (`CleanSkipsCollapse`).
- The lines of the cleaned text are exactly the stripped, non-empty lines of
  the input, in order (`CleanLines`).
- Cleaning is idempotent (`CleanIdempotent`).
- The scraped lyrics are the kept lines of every container, container after
  container in document order (`ScrapedLyrics`).
- The scraped lyrics are empty exactly when every container is whitespace
  only (`ScrapedLyricsEmpty`; `ContainerLinesEmpty` states the same for the
  list of kept lines).

## Model

| member | source | states |
|---|---|---|
| PyStr.TrimLeft | app/client/rapid_api.py:114 | the left-stripped text is no longer than the input and starts with a non-whitespace character when not empty |
| PyStr.TrimRight | app/client/rapid_api.py:114 | the right-stripped text is no longer than the input, ends with a non-whitespace character and keeps the input's first character when not empty |
| PyStr.TrimLeftSuffix | app/client/rapid_api.py:114 | left stripping removes a prefix, and that prefix is all whitespace |
| PyStr.TrimRightPrefix | app/client/rapid_api.py:114 | right stripping removes a suffix, and that suffix is all whitespace |
| PyStr.Strip | app/client/rapid_api.py:114 | the stripped text neither starts nor ends with whitespace and is no longer than the input |
| PyStr.StripSlice | app/client/rapid_api.py:114 | `strip()` is a middle slice of its input whose two margins are whitespace |
| PyStr.StripUnique | app/client/rapid_api.py:114 | any split of a text into a blank prefix, a stripped middle and a blank suffix has the `strip()` result as its middle |
| PyStr.StripEmpty | app/client/rapid_api.py:114-116 | a line strips to the empty string exactly when it is whitespace only |
| PyStr.StripSpacePrefix | app/client/rapid_api.py:114 | a leading whitespace character does not change `strip()` |
| PyStr.StripSpaceSuffix | app/client/rapid_api.py:114 | a trailing whitespace character does not change `strip()` |
| PyStr.StripStripped | app/client/rapid_api.py:114 | `strip()` is the identity on a text without surrounding whitespace |
| PyStr.StripLine | app/client/rapid_api.py:114 | stripping a newline-free line leaves it newline-free |
| PyStr.Split | app/client/rapid_api.py:109 | `split('\n')` returns at least one piece, the empty text included |
| PyStr.SplitLines | app/client/rapid_api.py:109 | no piece of `split('\n')` contains a newline |
| PyStr.SplitConcat | app/client/rapid_api.py:109 | splitting `a + '\n' + b` gives the pieces of `a` followed by the pieces of `b` |
| PyStr.SplitLine | app/client/rapid_api.py:109 | a newline-free text splits into itself alone |
| PyStr.SplitAppend | app/client/rapid_api.py:109 | appending a non-newline character to a text extends the last piece of its split |
| PyStr.Join | app/client/rapid_api.py:120 | `'\n'.join` starts with the first line and has at least one character per separator; its meaning is given by the two round trips below |
| PyStr.JoinSplit | app/client/rapid_api.py:109-120 | round trip: `'\n'.join(s.split('\n')) == s` |
| PyStr.SplitJoin | app/client/rapid_api.py:109-120 | round trip: joining a non-empty list of newline-free lines and splitting again gives the lines back |
| LyricsScraper.KeptLines | app/client/rapid_api.py:110-117 | the loop keeps at most as many lines as the input has |
| LyricsScraper.KeptLinesKeepable | app/client/rapid_api.py:112-117 | every kept line is non-empty and has no surrounding whitespace |
| LyricsScraper.KeptLinesConcat | app/client/rapid_api.py:112-117 | the lines kept from a concatenation are those kept from each part, in order |
| LyricsScraper.KeptLinesAreLines | app/client/rapid_api.py:112-117 | lines kept from newline-free lines are newline-free |
| LyricsScraper.KeptLinesOfKeepable | app/client/rapid_api.py:112-117 | lines that are already non-empty and stripped are all kept, unchanged |
| LyricsScraper.KeptLinesEmpty | app/client/rapid_api.py:112-117 | no line is kept exactly when every line is whitespace only |
| LyricsScraper.KeptLinesOne | app/client/rapid_api.py:112-117 | one line is kept, stripped, exactly when it strips to a non-empty text |
| LyricsScraper.KeptLinesReplace | app/client/rapid_api.py:112-117 | replacing a line by one with the same `strip()` keeps the same lines |
| LyricsScraper.NewlineRun | app/client/rapid_api.py:123 | the measured run is a maximal prefix of newlines |
| LyricsScraper.CollapseNewlines | app/client/rapid_api.py:123 | the substitution maps the empty text to itself, no other text to the empty text, and keeps the first character |
| LyricsScraper.CollapseRun | app/client/rapid_api.py:123 | a maximal run of three or more newlines becomes exactly two newlines, and a run of one or two is kept as it is |
| LyricsScraper.CollapseOther | app/client/rapid_api.py:123 | a character other than a newline is copied unchanged |
| LyricsScraper.NewlineRunOf | app/client/rapid_api.py:123 | the newline run measured at the front of `n` newlines followed by a non-newline is `n` |
| LyricsScraper.CollapseNoTriple | app/client/rapid_api.py:123 | no run of three newlines survives the substitution |
| LyricsScraper.CollapseIdentity | app/client/rapid_api.py:123 | the substitution does not change a text without two adjacent newlines |
| LyricsScraper.JoinKeepable | app/client/rapid_api.py:120 | joining non-empty, stripped, newline-free lines gives a text with no two adjacent newlines and no newline at either end, empty only for no lines |
| LyricsScraper.KeptLinesOfSplit | app/client/rapid_api.py:109-117 | the lines kept from any input are newline-free, non-empty and stripped |
| LyricsScraper.Clean | app/client/rapid_api.py:106-125 | the definition of `__clean_lyrics`: split on newlines, strip each line, drop the empty ones, join with newlines, collapse runs of three or more newlines to two; what it means is stated by `CleanLines`, `CleanIsLyricsText`, `CleanIdempotent` and `CleanEmpty` |
| LyricsScraper.CleanLyrics | app/client/rapid_api.py:106-125 | the loop computes `Clean` of its input, the result satisfies `IsLyricsText`, and it equals the joined kept lines |
| LyricsScraper.CleanSkipsCollapse | app/client/rapid_api.py:120-123 | the `\n{3,}` substitution is a no-op on the joined text: the cleaned lyrics are the joined kept lines and have no two adjacent newlines |
| LyricsScraper.CleanLines | app/client/rapid_api.py:109-123 | when at least one line is kept, splitting the cleaned lyrics gives back exactly the kept lines; the cleaned lyrics are empty exactly when no line is kept |
| LyricsScraper.CleanIsLyricsText | app/client/rapid_api.py:106-125 | the cleaned lyrics have no two adjacent newlines, no newline at either end, and every line non-empty and stripped |
| LyricsScraper.CleanIdempotent | app/client/rapid_api.py:106-125 | cleaning cleaned lyrics changes nothing |
| LyricsScraper.SplitBlank | app/client/rapid_api.py:109 | all pieces of a split are whitespace only exactly when the text is |
| LyricsScraper.CleanEmpty | app/client/rapid_api.py:106-125 | the cleaned lyrics are empty exactly when every input line, and so the whole input, is whitespace only |
| LyricsScraper.KeptLinesSpacePrefix | app/client/rapid_api.py:109-117 | a leading whitespace character, newline included, does not change the kept lines |
| LyricsScraper.KeptLinesSpaceSuffix | app/client/rapid_api.py:109-117 | a trailing whitespace character, newline included, does not change the kept lines |
| LyricsScraper.KeptLinesTrimLeft | app/client/rapid_api.py:109-117 | left stripping a text before splitting it does not change the kept lines |
| LyricsScraper.KeptLinesTrimRight | app/client/rapid_api.py:109-117 | right stripping a text before splitting it does not change the kept lines |
| LyricsScraper.KeptLinesStrip | app/client/rapid_api.py:109-117 | stripping a text before splitting it does not change the kept lines |
| LyricsScraper.CleanStrip | app/client/rapid_api.py:104 | the `strip()` applied before cleaning never changes the cleaned lyrics |
| LyricsScraper.Accumulate | app/client/rapid_api.py:97-102 | after at least one container the accumulated text ends with a newline |
| LyricsScraper.KeptLinesSplitConcat | app/client/rapid_api.py:102 | the lines kept from two texts joined by a newline are those kept from each text |
| LyricsScraper.SplitAccumulate | app/client/rapid_api.py:97-102 | splitting the accumulated text splits each stripped container separately |
| LyricsScraper.KeptLinesContainerPieces | app/client/rapid_api.py:97-104 | the lines kept from the pieces of the stripped containers are the lines kept from each container |
| LyricsScraper.ScrapedLyrics | app/client/rapid_api.py:97-104 | the scraped lyrics are the kept lines of every container, container after container in document order, joined by single newlines |
| LyricsScraper.ContainerLinesEmpty | app/client/rapid_api.py:97-104 | no line of any container is kept exactly when every container's text is whitespace only |
| LyricsScraper.ScrapedLyricsEmpty | app/client/rapid_api.py:97-104 | the cleaned, stripped accumulation of the containers is the empty text exactly when every container's text is whitespace only |
| LyricsScraper.GetLyricsFromContainers | app/client/rapid_api.py:88-104 | fails with "container not found" exactly when both selectors find nothing; otherwise returns the cleaned, stripped accumulation of the primary containers, or of the fallback ones when there are no primary containers; that result is the joined kept lines of those containers, satisfies `IsLyricsText`, and is empty exactly when every one of those containers is whitespace only |
| LyricsScraper.Get | app/client/rapid_api.py:60-61 | `dict.get(key, default)` gives the default for a missing key, the value for a present one, and `None` exactly for a JSON null |
| LyricsScraper.ToSongInfo | app/client/rapid_api.py:53-62 | the record copies id, title, artist name, full title and URL; a missing release date becomes "Unknown" and missing page views 0, a present value is copied, and a JSON null stays null |
| LyricsScraper.Songs | app/client/rapid_api.py:48-63 | there are at most as many song records as hits |
| LyricsScraper.SelectBestMatch | app/client/rapid_api.py:46-65 | the definition of `extract_song_info`: the record of the first hit of type "song", or nothing; what it means is stated by `SelectBestMatchNone` and `SelectBestMatchFirstSong` |
| LyricsScraper.ExtractSongInfo | app/client/rapid_api.py:46-65 | the loop computes `SelectBestMatch`, and returns `None` exactly when there is no `hits` key or no hit of type "song" |
| LyricsScraper.SongsConcat | app/client/rapid_api.py:51-63 | the song records of a concatenation of hit lists are those of each list in order |
| LyricsScraper.SongsEmpty | app/client/rapid_api.py:51-63 | there is no song record exactly when no hit has type "song" |
| LyricsScraper.SelectBestMatchNone | app/client/rapid_api.py:50-65 | the best match is absent exactly when there is no `hits` key or no hit of type "song" |
| LyricsScraper.SelectBestMatchFirstSong | app/client/rapid_api.py:50-65 | the best match is the record of the first hit of type "song", whatever well-formed hits follow it |
| VerseenAI.GetResponse | app/client/verseen_ai.py:52 | an interpretation is returned exactly when there is a first choice and its tool-call list is present and non-empty |
| VerseenAI.NoChoices | app/client/verseen_ai.py:52 | a response with no choices gives `None` |
| VerseenAI.NoToolCalls | app/client/verseen_ai.py:52 | a first choice whose tool calls are absent or empty gives `None` |
| VerseenAI.FirstToolCallArguments | app/client/verseen_ai.py:52 | otherwise the result is the first tool call's argument string, returned undecoded |
| VerseenAI.LaterChoicesIgnored | app/client/verseen_ai.py:52 | choices after the first never affect the result |
| VerseenAI.LaterToolCallsIgnored | app/client/verseen_ai.py:52 | tool calls after the first never affect the result |

## Left out

- `search_songs` (app/client/rapid_api.py:21-44): the HTTPS request to the search service, its headers and its JSON decoding are I/O. The decoded response is an input of `ExtractSongInfo`.
- The page request of `get_lyrics_from_genius_url` (app/client/rapid_api.py:70-83): the request itself, the User-Agent header, the 10-second timeout, the `print` of the URL (line 74) and the exceptions for a timeout, a failed request or a non-200 status are I/O and are not modelled.
- HTML parsing (app/client/rapid_api.py:85-101): the BeautifulSoup parse, the two CSS selectors, the `<br>`-to-newline replacement and `get_text(separator="\n")` are a foreign library. Each container is given as the text `get_text` would return.
- Configuration: `load_dotenv`, `os.getenv` and the `ValueError` raised for a missing key read the environment and are not modelled.
- `get_response` (app/client/verseen_ai.py:40-50): the chat-completion call, the model name, the system prompt, the tool schema, `max_tokens` and `tool_choice` belong to an external service. The response is an input of `GetResponse`.
- app/router/rtr_verseen.py: the HTTP route and its request and response schemas are outside the core. Its call to a method `interpret_lyrics` that the client does not define is not modelled.
- The `__main__` blocks of both client files print to the console and are not modelled.
- `ExtractSongInfo`: a hit without `type`, or a song-typed hit without `result` or whose `result` lacks one of `id`, `title`, `primary_artist.name`, `full_title`, `url` or `stats`, raises `KeyError` in the source. This happens wherever the hit stands in the list, even after the first song hit, because every record is built before `songs[0]` is taken. A hit of another type is skipped without its `result` being read. The model gives every hit a type and a complete result (ignored unless the hit is a song) and does not model that error.
- `SelectBestMatchFirstSong`: "whatever follows it" speaks of the well-formed hits the model admits. In the source, a later hit that raises `KeyError` as described above makes the whole call raise.
- `ToSongInfo`: the copied fields `id`, `title`, `primary_artist.name`, `full_title` and `url` have fixed types in `SongResult` and `Artist` (an integer and strings). The source copies whatever JSON value stands there, a `null` or another type included, and the model does not express that case.
- `ExtractSongInfo`: a JSON `null` where the source expects a list or an object raises in the source, and the model has no such case. A null `hits` value raises `TypeError`, a null `stats` raises `AttributeError` at `.get`, and a null `primary_artist` raises `TypeError`. `SearchResults.hits`, `Stats` and `Artist` cannot be null.
- `PyStr.Strip`: Python 3's `isspace()` set is spelled out character by character. No Unicode normalisation or other string semantics are modelled.
- `LyricsScraper.CollapseNewlines` is the regular-expression substitution at app/client/rapid_api.py:123, written out as a scan over maximal newline runs. The regular-expression engine is not modelled.
- `LyricsScraper.GetLyricsFromContainers` does not promise non-empty lyrics: in the code, containers that are all whitespace give empty lyrics. `ScrapedLyricsEmpty` and its own last `ensures` state exactly when this happens.
- `LyricsScraper.ToSongInfo`: `dict.get` with a default returns `None`, not the default, when the key is present with a JSON `null`. The model keeps that null, as the code does.
