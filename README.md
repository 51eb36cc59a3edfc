# Key custody, seed languages and seed dating in the OTS library

This project models, in Dafny, four sequential pieces of the offline transaction-signing (`ots/`) library:

- **KeyJar** (`KeyJars`): a table from nonzero 64-bit handles to entries. Each entry holds its own copy of a 32-byte secret key, a label and a 64-bit access counter. `KeyJars.KeyJar` is a class whose `keys` field is a `map` that the methods reassign: `StoreKey` inserts, `GetKey` bumps one counter and `RemoveKey` erases. The function-local static behind `KeyJar::instance()` is the class `KeyJars.Process`. It builds the jar on the first call and hands back the same object on every later call.
- **SeedLanguage** (`SeedLanguages`): the catalogue of mnemonic dictionaries. It covers the first-match lookups by native name, English name and code, `supported`, `listFor`, `isDefault`, `defaultLanguage` and code-only equality (`Same`). The catalogue `s_list` and the default map `s_default` are a `Catalogue` value passed in. Filling `s_list` is a TODO in `list()` (`ots/src/seed-language.cpp:58`), and no code shown fills `s_default`, which is only read. The accessors `name()`, `englishName()` and `code()` are the datatype's fields. `list()` is the field `Catalogue.list`, so reading it cannot change the catalogue. Each loop in the source (`supported`, the three lookups, `listFor`) is a method whose loop invariants prove it equal to a specification function. The lemmas are stated about those functions.
- **Seed dating** (`Seeds`): `birthday()` and `height()` are functions over the stored network, birthday and height. The network estimators `OTS::timestampFromHeight` and `OTS::heightFromTimestamp` are arrow-typed parameters with no properties assumed. Also included are `languageSupported` and the default constructor.
- **Error taxonomy** (`OtsExceptions`): every exception class is an `Error` constructor. Each one has its base class (`FamilyOf`), its `what()` text (`Message`) and the base object it constructs (`AsBase`). Lookups return the `Result` datatype in place of throwing.

Behaviour kept as the code has it:

- `supported(type)` loops over the whole catalogue and reads each item's flags, not the receiver's. So every language gives the same answer (`SupportedIgnoresReceiver`), and `listFor` returns the whole catalogue or nothing (`ListForAllOrNothing`).
- `storeKey` does not deduplicate. Storing the same key twice yields two handles and two entries (`StoreTwice`). No code path compares a new key with the stored ones.
- `generateHandle` rejects 0 and the handles currently in use, and no others. A removed handle may therefore be issued again (`RemoveThenGet` ends with `Issuable(..., h)`). Nothing records removed handles, so the retry loop at `ots/src/keyjar.cpp:13` may draw one again.
- `access_count` is a `uint64_t`, so `++` wraps from `UINT64_MAX` to 0 (`Bump`).

## Model

| member | source | states |
|---|---|---|
| OtsExceptions.Message | ots/include/ots-exceptions.hpp:26-30 | the message of a `NotImplementedYet` always begins with "Not implemented yet", and equals it exactly when the error was built without a detail |
| OtsExceptions.AsBase | ots/include/ots-exceptions.hpp:14-59 | every error constructs a base-class error (one of the five families) with the same family and the same message; a base error is its own base |
| OtsExceptions.FamilyOf | ots/include/ots-exceptions.hpp:14-59 | each error has exactly one base class: RuntimeError and NotImplementedYet have no derived kinds, DomainError is shared only with NoDefaultLanguageSet, OutOfRange with LanguageNotFound and AddressNotFound, InvalidArgument with address Invalid (see also `AsBase`, `DerivedKinds`) |
| OtsExceptions.NotImplementedIn | ots/include/ots-exceptions.hpp:3-7 | `NOT_IMPLEMENTED_YET()` raises a NotImplementedYet-family error whose message is "Not implemented yet: " followed by the enclosing function's name |
| OtsExceptions.DerivedKinds | ots/include/ots-exceptions.hpp:36-59 | LanguageNotFound is OutOfRange with "Language not found"; NoDefaultLanguageSet is DomainError with "No default language set for seed type"; address Invalid is InvalidArgument with "Not a valid Monero address"; AddressNotFound is OutOfRange with "Address not found in wallet" |
| OtsExceptions.NotImplementedDetailRecoverable | ots/include/ots-exceptions.hpp:29 | two detailed NotImplementedYet errors with the same message were built from the same detail |
| SeedLanguages.SameIsEquivalence | ots/src/seed-language.cpp:31-33 | code-only equality is reflexive, symmetric and transitive |
| SeedLanguages.Same | ots/src/seed-language.cpp:31-33 | `operator==` compares codes only and holds of a language and itself; `SameIsEquivalence` proves it an equivalence |
| SeedLanguages.Supported | ots/src/seed-language.cpp:17-24 | the answer is true exactly when the first catalogue entry that records the type records `true` for it; it is false when no entry records the type |
| SeedLanguages.SupportedLoop | ots/src/seed-language.cpp:17-24 | the early-return loop returns exactly `Supported`: the flag of the first catalogue entry that records the type, false if none does |
| SeedLanguages.SupportedIgnoresReceiver | ots/src/seed-language.cpp:17-24 | `supported(type)` gives the same answer whichever language it is asked of |
| SeedLanguages.Find | ots/src/seed-language.cpp:35-54 | success returns an entry whose field equals the key exactly and no earlier entry matches; failure happens exactly when no entry matches, and the error is LanguageNotFound |
| SeedLanguages.Scan | ots/src/seed-language.cpp:35-54 | the first-match loop with early return computes exactly `Find` |
| SeedLanguages.FromName | ots/src/seed-language.cpp:35-40 | `fromName` is the first-match search on the native name |
| SeedLanguages.FromEnglishName | ots/src/seed-language.cpp:42-47 | `fromEnglishName` is the first-match search on the English name |
| SeedLanguages.FromCode | ots/src/seed-language.cpp:49-54 | `fromCode` is the first-match search on the code |
| SeedLanguages.FromCodeFindsListed | ots/src/seed-language.cpp:49-54 | for every listed language, looking up its code succeeds and returns a language equal to it |
| SeedLanguages.Filter | ots/src/seed-language.cpp:63-70 | the filter keeps every element for which `supported` holds, keeps nothing else, and never grows |
| SeedLanguages.ListForLoop | ots/src/seed-language.cpp:63-70 | the push_back loop builds exactly the catalogue filtered by `supported`, in catalogue order |
| SeedLanguages.FilterAllOrNothing | ots/src/seed-language.cpp:63-70 | filtering any sequence by `supported` keeps all of it or none of it |
| SeedLanguages.ListForAllOrNothing | ots/src/seed-language.cpp:63-70 | `listFor(type)` is the whole catalogue when `supported(type)` holds, and empty otherwise |
| SeedLanguages.ListFor | ots/src/seed-language.cpp:63-70 | `listFor(type)` is the whole catalogue or empty, and holds only listed languages for which `supported(type)` is true (exact value in `ListForAllOrNothing`) |
| SeedLanguages.DefaultsShareCode | ots/src/seed-language.cpp:26-29 | any two languages for which `isDefault(type)` holds are equal under `operator==` (share one code) |
| SeedLanguages.IsDefault | ots/src/seed-language.cpp:26-29 | false when no default is registered for the type; when true, the receiver equals the registered default under `operator==` (see `DefaultsShareCode`, `DefaultLanguage`) |
| SeedLanguages.DefaultLanguage | ots/src/seed-language.cpp:72-77 | succeeds exactly when a default is registered for the type, returns that default, and the result satisfies `isDefault`; otherwise fails with NoDefaultLanguageSet |
| Seeds.Birthday | ots/src/seed.cpp:10-14 | a nonzero stored birthday is returned unchanged |
| Seeds.Height | ots/src/seed.cpp:16-20 | a nonzero stored height is returned unchanged |
| Seeds.StoredCoordinatesWin | ots/src/seed.cpp:10-20 | with both coordinates stored, both accessors return the stored values |
| Seeds.HeightFromBirthday | ots/src/seed.cpp:16-20 | with the height unset and the birthday set, `height()` estimates from the birthday that `birthday()` reports |
| Seeds.BirthdayFromHeight | ots/src/seed.cpp:10-14 | with the birthday unset, `height()` is the stored height and `birthday()` estimates from it, even when it is 0 |
| Seeds.NothingStoredNothingCached | ots/src/seed.cpp:10-20 | with neither coordinate stored, `birthday()` estimates from height 0 and `height()` still reports 0: no derived value is written back |
| Seeds.LanguageSupportedIsConstant | ots/src/seed.cpp:6-8 | `languageSupported(lang)` is `lang.supported(Monero)` and depends on neither the seed nor the language |
| Seeds.LanguageSupported | ots/src/seed.cpp:6-8 | `languageSupported(lang)` equals `supported(Monero)` asked of any language whatever (see `LanguageSupportedIsConstant`) |
| Seeds.DefaultSeed | ots/src/seed.cpp:22 | the default-constructed seed is on the main network and owns a key store, the default one its key type provides (a parameter here) |
| KeyJars.NewEntry | ots/include/keyjar.hpp:18-24 | a new entry holds the given key and label (empty by default) and an access count of 0 |
| KeyJars.Bump | ots/src/keyjar.cpp:36 | the 64-bit counter increment adds one below `UINT64_MAX` and wraps to 0 at it |
| KeyJars.FreeHandleExists | ots/src/keyjar.cpp:4-16 | a table with fewer than `UINT64_MAX` entries has a nonzero handle not in use, so the retry loop has something to find |
| KeyJars.KeyJar.constructor | ots/include/keyjar.hpp:27-29 | a new jar is empty and `next_handle_` is 1 |
| KeyJars.KeyJar.GenerateHandle | ots/src/keyjar.cpp:4-16 | the handle is nonzero and not currently a key of the table |
| KeyJars.KeyJar.CleanupUnusedKeys | ots/src/keyjar.cpp:45-48 | the cleanup pass changes nothing |
| KeyJars.KeyJar.StoreKey | ots/src/keyjar.cpp:18-26 | the returned handle was free and nonzero; the table gains exactly that one entry, holding the key and label with count 0, and every other entry is unchanged |
| KeyJars.KeyJar.GetKey | ots/src/keyjar.cpp:28-38 | an absent handle gives null and changes nothing; a present one gives its key and bumps only that entry's count |
| KeyJars.KeyJar.RemoveKey | ots/src/keyjar.cpp:40-43 | returns whether the handle was present; afterwards it is absent and every other entry is unchanged |
| KeyJars.Process.Instance | ots/include/keyjar.hpp:42-45 | the first call builds an empty jar, and every later call returns that same jar |
| KeyJars.InstanceIsStable | ots/include/keyjar.hpp:42-45 | two calls of `instance()` return the same object |
| KeyJars.StoreTwice | ots/src/keyjar.cpp:18-26 | storing one key twice gives two different fresh handles and two entries with the same contents |
| KeyJars.RemoveThenGet | ots/src/keyjar.cpp:28-43 | after `removeKey(h)`, `getKey(h)` returns null and every other entry is unchanged, and a nonzero `h` may be issued again |

The invariant `KeyJars.KeyJar.Valid` holds before and after every jar method. It says that handle 0 never names an entry and that `next_handle_` stays 1. Every `SecretKey` and every entry is a value, so an entry owns its own copy of the caller's key and nothing can alias it.

## Left out

- Locking: the `std::mutex` and `lock_guard` in `keyjar.cpp` are concurrency. The jar is modelled sequentially.
- Randomness: `std::random_device` and `mt19937_64` in `generateHandle` become a nondeterministic choice of an issuable handle. The do-while retry loop becomes that one choice, so the model has no loop whose termination would rest on the random source. The `handle == 0` test is subsumed by `Issuable`.
- KeyJars.KeyJar.GenerateHandle: requires fewer than `UINT64_MAX` entries. On a full table the source's retry loop never ends, and no caller can store that many keys.
- KeyJars.KeyJar.StoreKey: requires fewer than `UINT64_MAX` entries, for the same reason.
- `getKey` returns a raw pointer into the entry. The model returns the key value, so it does not capture that the pointer dangles after a later `removeKey`.
- The contents of `crypto::secret_key` are opaque 32-byte sequences. Zeroing key bytes on destruction is not in the code.
- `Catalogue.list`: the contents of `s_list` are an input, because filling them is a TODO in `list()` (`ots/src/seed-language.cpp:58`).
- `Catalogue.defaults`: the contents of `s_default` are an input, because no code shown fills it (it is only read, at `ots/src/seed-language.cpp:27` and `:73`) and its declaration, which might give it an initial value, is not part of this model.
- The declarations of `SeedType` and `Network` are not part of this model. `SeedType` is modelled as `Monero | Polyseed` and `Network` as `Main | Test | Stage`.
- Seeds.DefaultSeed: the constructor sets only the key store and the network. It builds a fresh default `KeyStore`, whose key holds whatever the default of the foreign `crypto::secret_key` leaves in it; that content is not known here, so the store is a parameter. The constructor does not initialise `m_birthday` or `m_height`; any initial value comes from a class declaration that is not shown, so they are parameters too. The seed's word-index values are not read by any modelled operation and are left out.
- `OTS::timestampFromHeight` and `OTS::heightFromTimestamp`: network estimation is not part of this model. They are parameters with no properties assumed.
- Private inheritance in `ots-exceptions.hpp` means outside code cannot catch these errors as `std::exception&`, cannot catch `LanguageNotFound` as `OutOfRange&` or `NoDefaultLanguageSet` as `DomainError&`, and cannot call `what()` on them. That is C++ access control and is not modelled. `FamilyOf` and `AsBase` record which base class each error is constructed from, not which handlers can catch it, and `Message` is the text stored in the base, not one callers can read.
- The C ABI (`ots.h`, `ots_abi.cpp`, `ots-abi.cpp`, and the `extern "C"` KeyJar functions `keyjar_store_key`, `keyjar_remove_key`, `keyjar_is_valid_handle`, `keyjar_sign_message` and `keyjar_derive_shared_secret` declared in `keyjar.hpp`, none of which has a body in the code shown), the declarations-only second KeyJar API, wallet and address stubs, `ots.cpp` (calls into the cryptographic library) and the HTTP client interfaces are not part of this model.
