# mem-db hashing, rendering and command-line core in Dafny

mem-db is a C repository with a server (`mem-db-server`) and a
command-line client (`mem-db-cli`). This project models two of its source
files and proves properties of them.

- **src/hash_table.c**:
  - `murmur_hash_x86_32`: MurmurHash3, the x86 32-bit variant. It reads
    4-byte little-endian blocks, does the tail switch, xors in the length
    and finishes with the `fmix32` avalanche.
  - `rotl_32`: its 32-bit left rotation.
  - `bit_at`, `bin` and `hex`: diagnostic renderers that turn a byte buffer
    into a NUL-terminated string of `0`/`1` characters (most significant bit
    first) or of lowercase hex digits (two per byte, high nibble first).
- **src/cli.c**:
  - `getcfg` and `struct cli_cfg`: the client's command-line parser. It
    accepts `--host <hostname>`, `--port <port>`, `--version` and `--help`
    and applies the defaults `127.0.0.1` and `11111`.

There are four modules:

- `Rotation` (rotation.dfy): the rotation, its step and inverse lemmas, and
  the rotation table of the test suite.
- `HashTable` (hash_table.dfy): the hash as a recursive fold over blocks
  (`Murmur3`). It includes the imperative loop of the C function
  (`MurmurHashX86_32`), proved equal to the fold, and every hash vector of
  the test suite.
- `Render` (render.dfy): `bit_at`, `bin` and `hex`. `bin` and `hex` are
  methods writing into an `array<char>`, each proved against a function on
  the source bytes. Plain `char` is taken to be signed, as with gcc and
  clang on x86, and this is modelled explicitly. Where `char` is unsigned,
  `hex` renders `HexString` for every byte; `bit_at` does not depend on the
  sign (`BitAtMsbFirst`).
  - For `bin`, reading the rendering back gives the bytes.
  - For `hex`, the round trip is proved for the corrected rendering
    (`HexString`). The code produces that rendering only for bytes below
    0x80 (`HexSignedAscii`); for larger bytes its high digit differs (see
    "Findings").
- `Cli` (cli.dfy): `getcfg` as a recursive scan over argv (`GetCfg`) plus
  the loop as written (`GetCfgLoop`), proved equal. `atoi` and the store
  into a `uint16_t` are modelled.

Bytes are `bv8`. Hash arithmetic is `bv32`, so wrap-around is that of
`uint32_t`. Printing the version or the usage text, and exiting through
`fatal`, are modelled as the outcome values `ShowVersion`, `ShowHelp` and
`Fatal(...)`.

Two behaviours of the code are worth knowing.

- **Port values are not checked.** `getcfg` stores `atoi(value)` into a
  `uint16_t` at src/cli.c:43. So `"abc"` and `"65536"` both become port 0,
  which then falls back to 11111 (`PortFallback`, `PortNotNumeric`,
  `PortOfNumeral`), and `"070"` is taken as 70.
- **Hex digits.** `hex` gives two lowercase hex digits per byte only for
  bytes below 0x80 (see "Findings").

## Model

| member | source | states |
|---|---|---|
| Rotation.Rotl32 | src/hash_table.c:48-51 | none: definition of `rotl_32`; see the RotlStep, RotlInverse and RotlTable rows |
| Rotation.RotlStep | src/hash_table.c:48-51 | for 0 < n < 31, rotating left by n + 1 equals rotating by n and then by 1 more |
| Rotation.RotlInverse | src/hash_table.c:48-51 | for 0 < n < 32, rotating by n and then by 32 - n gives back x: no bit is lost |
| Rotation.RotlTable | test/hash_table.c:12-27 | the 32 expected rotations of 0x33eaeb09 in the test table (n = 0 relies on the model's defined shift, see "Left out") |
| HashTable.MixBlock | src/hash_table.c:19 | none: definition of the block scrambling; see the DigestBlock and vector rows |
| HashTable.MixHash | src/hash_table.c:20 | none: definition of the running-hash update; see the DigestBlock and vector rows |
| HashTable.TailMix | src/hash_table.c:26-35 | none: definition of the tail step; see the TailFallthrough and TailSwitch rows |
| HashTable.AddLength | src/hash_table.c:37 | none: definition of `hash ^= len` with the length truncated to 32 bits; see the MurmurHashX86_32 and MurmurEmpty rows |
| HashTable.Fmix32 | src/hash_table.c:39-43 | none: definition of the final avalanche; see the MurmurEmpty and vector rows |
| HashTable.Digest | src/hash_table.c:11-35 | none: definition of the fold over blocks and tail; see the DigestBlock, DigestAppend and TailSwitch rows |
| HashTable.Murmur3 | src/hash_table.c:9-46 | none: definition of the whole hash; see the MurmurHashX86_32, MurmurEmpty and vector rows |
| HashTable.LeWordBytes | src/hash_table.c:16-18 | the block load is little-endian: byte j of a block is bits 8j..8j+7 of the word, so the four bytes can be read back from it |
| HashTable.TailFallthrough | src/hash_table.c:26-35 | the switch, entered at case 3, 2 or 1 and falling through, xors tail[2] << 16, tail[1] << 8 and tail[0] into 0, giving the zero-padded little-endian word of the tail |
| HashTable.TailSwitch | src/hash_table.c:23-35 | the tail starts at len / 4 * 4 and has len % 4 bytes; for each value of `len & 3` the switch case computes the tail word of exactly those bytes, and case 0 mixes nothing |
| HashTable.DigestBlock | src/hash_table.c:16-21 | one block iteration: after mixing the block word w into h, the hash of the buffer continues with the new running hash on the bytes after the block |
| HashTable.MurmurHashX86_32 | src/hash_table.c:9-46 | the block loop, tail switch, length xor and `fmix32` compute Murmur3(key, seed): the fold over blocks, then the tail, the length mod 2^32 and the avalanche |
| HashTable.MurmurEmpty | src/hash_table.c:13-43 | an empty buffer skips the blocks and the tail and xors in length 0, so its hash is fmix32(seed) |
| HashTable.DigestAppend | src/hash_table.c:16-21 | blocks are absorbed in order: for a whole number of blocks a, hashing a + b continues from the running hash that a leaves |
| HashTable.VectorEmpty | test/hash_table.c:61-63 | the empty buffer hashes to 0, 0x514e28b7 and 0x81f16f39 under seeds 0, 1 and 0xffffffff |
| HashTable.VectorFfFfFfFf | test/hash_table.c:64 | bytes ff ff ff ff with seed 0 hash to 0x76293b50 |
| HashTable.Vector21436587 | test/hash_table.c:65-66 | bytes 21 43 65 87 hash to 0xf55b516b (seed 0) and 0x2362f9de (seed 0x5082edee) |
| HashTable.Vector214365 | test/hash_table.c:67 | the three-byte tail 21 43 65 with seed 0 hashes to 0x7e4a8634 |
| HashTable.Vector2143 | test/hash_table.c:68 | the two-byte tail 21 43 with seed 0 hashes to 0xa0f7b07a |
| HashTable.Vector21 | test/hash_table.c:69 | the one-byte tail 21 with seed 0 hashes to 0x72661cf4 |
| HashTable.VectorZeros4 | test/hash_table.c:70 | four zero bytes with seed 0 hash to 0x2362f9de |
| HashTable.VectorZeros3 | test/hash_table.c:71 | three zero bytes with seed 0 hash to 0x85f0b427 |
| HashTable.VectorZeros2 | test/hash_table.c:72 | two zero bytes with seed 0 hash to 0x30f4c306 |
| HashTable.VectorZeros1 | test/hash_table.c:73 | one zero byte with seed 0 hashes to 0x514e28b7 |
| HashTable.VectorHelloWorld1234 | test/hash_table.c:74 | "Hello, world!" (three blocks and a one-byte tail) with seed 1234 hashes to 0xfaf6cdb3 |
| HashTable.VectorHelloWorld4321 | test/hash_table.c:75 | "Hello, world!" with seed 4321 hashes to 0xbf505788 |
| HashTable.ZerosDistinct | test/hash_table.c:70-73 | runs of 1 to 4 zero bytes hash to four pairwise distinct values under seed 0 |
| Render.CharValue | src/hash_table.c:70 | reading a byte as a signed `char` gives a value in -128..127 that is congruent to the byte modulo 256 |
| Render.BitAt | src/hash_table.c:53-56 | `bit_at` yields 0 or 1 |
| Render.BitAtMsbFirst | src/hash_table.c:53-56 | `bit_at(s, i)` is bit 7 - i % 8 of byte i / 8, most significant first; the arithmetic shift of a negative `char` does not change the bit |
| Render.BinString | src/hash_table.c:58-65 | rendering `bits` bits gives exactly `bits` characters |
| Render.BinStringChar | src/hash_table.c:60-62 | character i of the rendering is '1' if and only if `bit_at(src, i)` is 1 |
| Render.BinStringPrefix | src/hash_table.c:60-62 | rendering fewer bits gives a prefix of rendering more |
| Render.BinStringAt | src/hash_table.c:58-65 | when whole bytes are rendered, byte j occupies characters 8j..8j+7 as its own 8-character binary numeral |
| Render.ReadByteBin | src/hash_table.c:53-56 | the first m characters of a byte's rendering, read as a binary numeral, are the byte's top m bits |
| Render.BinRoundTrip | src/hash_table.c:58-65 | reading back each 8-character group of the rendering of a buffer gives the byte it came from |
| Render.Bin | src/hash_table.c:58-65 | `bin` writes the rendering of the first `bits` bits into dest[0..bits], a NUL at dest[bits], and nothing else |
| Render.BinHello | test/hash_table.c:8-10 | the first six bytes of "Hello world!" render as the first 48 characters of the test's literal |
| Render.BinWorld | test/hash_table.c:8-10 | the last six bytes of "Hello world!" render as the last 48 characters of the test's literal |
| Render.BinHelloWorld | test/hash_table.c:8-10 | the 96-bit rendering of "Hello world!" is the test's literal |
| Render.NibbleDigit | src/hash_table.c:75-76 | a nibble 0..15 becomes the lowercase digit '0'..'9', 'a'..'f' of that value |
| Render.HexSigned | src/hash_table.c:67-80 | the rendering as written, with signed `char` digits, has two characters per byte; see the HexSignedPair, HexSignedAscii and Hex rows |
| Render.HexString | src/hash_table.c:67-80 | the corrected rendering has two characters per byte; see the HexStringAt and HexRoundTrip rows |
| Render.HexStringAt | src/hash_table.c:75-76 | in the corrected rendering, byte j is at characters 2j and 2j + 1: high nibble first, then low nibble |
| Render.HexRoundTrip | src/hash_table.c:67-80 | reading back each digit pair of the corrected rendering gives the byte it came from |
| Render.HexSignedPair | src/hash_table.c:70-76 | as written, the low digit is always the right one, the high digit is right if and only if the byte is below 0x80, and above that it is one of '(' .. '/' |
| Render.HexSignedAt | src/hash_table.c:69-77 | as written, the two characters at 2j and 2j + 1 are the digit pair of byte j read as a signed `char` |
| Render.HexSignedByte | src/hash_table.c:70-76 | at byte j of any buffer, the code as written and the corrected rendering share the low digit, and share the high digit if and only if the byte is below 0x80 |
| Render.HexSignedAscii | src/hash_table.c:67-80 | for a buffer with no byte at or above 0x80, the code as written renders exactly the intended lowercase hex |
| Render.HexSignedDiverges | src/hash_table.c:70-75 | the byte 0x80 renders as "(0" as written, and as "80" when corrected |
| Render.Hex | src/hash_table.c:67-80 | `hex` as written puts the rendering of src[..bytes], with signed `char` shifts, into dest[0..2 * bytes], a NUL after it, and changes nothing else |
| Render.HexHello | test/hash_table.c:7 | the first six bytes of "Hello world!" render as "48656c6c6f20" |
| Render.HexWorld | test/hash_table.c:7 | the last six bytes of "Hello world!" render as "776f726c6421" |
| Render.HexHelloWorld | test/hash_table.c:45-50 | "Hello world!" renders as "48656c6c6f20776f726c6421" both as written and corrected |
| Cli.CliCfg | src/cli.c:22-25 | none: `struct cli_cfg` as a datatype, with None standing for a NULL hostname |
| Cli.Atoi | src/cli.c:43 | none: definition of `atoi`; see the AtoiDecimal, AtoiNegative, AtoiNoDigits and SkipSpaceSuffix rows |
| Cli.Scan | src/cli.c:32-55 | none: definition of the loop over argv; see the GetCfgLoop row and the lemma rows below it |
| Cli.GetCfg | src/cli.c:27-66 | none: definition of `getcfg`; see the GetCfgLoop row and the lemma rows below it |
| Cli.ToPort | src/cli.c:43 | the stored port is in 0..65535 and congruent to the `atoi` value modulo 2^16 |
| Cli.Finish | src/cli.c:57-60 | after the loop the outcome is a configuration; a host that was set is kept and an unset one becomes 127.0.0.1; a non-zero port is kept and port 0 becomes 11111 |
| Cli.GetCfgLoop | src/cli.c:27-66 | the loop as written, which advances its index a second time after an option's argument and returns early, gives the same outcome as the scan over argv |
| Cli.NoArguments | src/cli.c:57-60 | with only the program name the configuration is 127.0.0.1:11111 |
| Cli.HostLastWins | src/cli.c:36-39 | `--host x` after any accepted arguments sets the host to x, whatever x is, and keeps the port |
| Cli.PortLastWins | src/cli.c:40-43 | `--port v` after any accepted arguments sets the port to `atoi(v)` mod 2^16, or 11111 when that is 0, and keeps the host |
| Cli.MissingOptionArgument | src/cli.c:36-43 | `--host` or `--port` as the last argument fails with "Expected argument" naming the option |
| Cli.StrayArgument | src/cli.c:50-53 | any other argument fails: as an unknown option if it starts with '-', otherwise as an unexpected argument; later arguments are not inspected |
| Cli.VersionAndHelp | src/cli.c:44-49 | `--version` or `--help` after any accepted arguments ends the parse with the version or the usage, whatever follows |
| Cli.EarlierStopWins | src/cli.c:32-55 | once a prefix of argv stops the parse (except by a missing option argument), appending arguments does not change the outcome |
| Cli.PortFallback | src/cli.c:59-60 | a port value that converts to 0 gives the default port 11111 |
| Cli.PortNotNumeric | src/cli.c:43 | a value without digits ("abc") converts to port 0 and is not rejected |
| Cli.PortOfNumeral | src/cli.c:43 | a numeral n becomes port n mod 65536, so exactly the multiples of 65536 become port 0 |
| Cli.HostValueNotAnOption | src/cli.c:37-39 | the value after `--host` is taken as the hostname even when it is "--help" |
| Cli.EmptyArgument | src/cli.c:50-53 | an empty argument is an unexpected argument, not an unknown option |
| Cli.AtoiDecimal | src/cli.c:43 | `atoi` of a decimal numeral after white space is its value |
| Cli.AtoiNegative | src/cli.c:43 | `atoi` of '-' and a numeral after white space is its negation |
| Cli.AtoiNoDigits | src/cli.c:43 | `atoi` gives 0 when no digit follows the white space and the optional sign |
| Cli.SkipSpaceSuffix | src/cli.c:43 | what `atoi` reads after its white space is a suffix of the argument that does not start with white space |
| Cli.DigitRunDecimal | src/cli.c:43 | reading the digits of the decimal numeral of n gives n back |

## Left out

- Output and process exit: `printf` of the version and usage, `fatal`, and `exit` are outcomes, not I/O, and the usage text itself is not modelled.
- Allocation: failure of `xzalloc` and `xstrdup`, and the copying of the hostname, are left out; the model holds the hostname as a value.
- Argument strings are sequences of characters; a C string ending at an embedded NUL is not modelled.
- Cli.Atoi: reads an unbounded integer, so a value beyond the range of `int` (undefined behaviour in C) is reduced modulo 2^16 like any other; the C locale is assumed for `isspace`.
- Rotation.Rotl32: for n = 0 the C expression shifts by 32, which C leaves undefined; the model uses Dafny's defined shift and yields x.
- Unaligned 4-byte loads and big-endian targets: the source asserts a little-endian target (src/hash_table.h:7) and the model loads bytes, so alignment plays no part.
- HashTable.MurmurHashX86_32: the `int` block counter and the `int` loop indices of `bin` and `hex` are unbounded in the model; overflow for buffers of 2^31 or more blocks, bits or bytes is not modelled. The length xor is reduced modulo 2^32 as in the source.
- Render.Bin and Render.Hex: the source is a sequence value, so the model cannot express dest and src overlapping.
- `fmix32` being a bijection is not proved.
- src/hash_table.c contains no table (no buckets or chains), only the hash and the renderers, so there is no table to model.
- Not part of this model: the thread-pool drafts (src/thread_pool.c, src/threadpool.c), the server stub in src/server.c, the allocation wrappers in src/common.c and src/malloc.c, src/sys.c, and `repl_loop` and `main` in src/cli.c.

## Findings

| source | as written | input that shows it | evidently intended | confidence | as-written member | corrected member |
|---|---|---|---|---|---|---|
| src/hash_table.c:70-75 | with a signed plain `char` (gcc and clang on x86), `c >> 4` is negative for bytes 0x80..0xff and the high digit becomes `x + '0'` with x in -8..-1 | the one byte 0x80 renders as "(0" | two lowercase hex digits per byte, "80" | not executed | Render.HexSignedDiverges | Render.HexRoundTrip |
