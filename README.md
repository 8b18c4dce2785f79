# FoodHub client-side state, modelled in Dafny

This project models the shared client-side logic of the FoodHub food-delivery storefront. It covers five library pieces:

- **Translation lookup** (`Translation`, lib/use-translation.ts). `t(key)` splits a dotted key at every `.`. It walks the current language's locale table one segment at a time and returns the value it finds, which can be a string or a sub-object. It returns the key itself on any miss. The language is the stored setting, or `'en'` when the setting is unset or empty. The locale files are parameters (`Locales`). `Translation.T` is the source's loop, proved against the recursive `Walk` and `Lookup`.
- **Accessibility settings** (`Accessibility`, lib/accessibility-context.tsx). This is the fourteen-field preference record with its defaults, `updateSetting`, `resetSettings` and `applyAccessibilitySettings`. The last one is a method on `DocumentRoot`. `DocumentRoot` holds the root font size in pixels and the root's class list. The method adds and removes one class at a time, as the source does. It is proved to end in `Applied(before, settings)`: the unmanaged classes kept, plus exactly the managed classes the settings ask for.
- **Toast list** (`Toasts`, components/ui/Toast.tsx). `useToast`'s state cell is `ToastList`, with `AddToast` (append; the type defaults to `info`) and `RemoveToast` (filter by id). The random id is an input.
- **Location store** (`Location`, lib/location-context.tsx). This covers the per-user storage keys with the guest fallback, the load effect with its defaults, `addSavedPlace`, and the two write-back effects. Places are written only when the list is non-empty. Local storage is a `map<string, string>` field. The JSON parser and printer for the place list are function parameters. The `Date.now()` id is an input.
- **Mock restaurant database** (`RestaurantDb`, lib/db.ts). This covers `getAll`, `getBySlug`, `getById`, `search` and `menuDb.getByRestaurant` over the static restaurant list, which is a parameter. `getAll`, `getBySlug`, `getById` and `search` return restaurant records reshaped with `delivery_time` and `is_closed`. `menuDb.getByRestaurant` returns the restaurant's `menu` as it is. The three `find`-based lookups share one first-match function, `FindFirst`.

The root's class list is a set of `CssClass` tokens. Each of the fourteen managed class names (`high-contrast`, …, `protanopia`, …) has its own constructor. Any other class is `Other(name)`. `Name` and `ClassOf` convert between tokens and strings. `Name(ClassOf(n)) == n` holds for every string. The other direction, `ClassOf(Name(c)) == c`, holds only on canonical tokens. `Canonical` is the condition that no `Other` token carries a managed name. `DocumentRoot` keeps it as its invariant `Valid()`: the constructor requires it, and `Apply` preserves it. A name read as `Other` is never a managed name (`ClassOfOther`), so a class list read from the document is canonical.

A user whose id is the literal string `guest` shares the guest's storage keys (`Location.GuestIdSharesGuestKeys`). Identity-provider ids do not take that form, so this is recorded rather than treated as a defect.

## Model

| member | source | states |
|---|---|---|
| Translation.Split | lib/use-translation.ts:15 | `key.split('.')` has at least one segment, no segment contains a dot, and joining the segments with `.` gives back the key |
| Translation.SplitJoin | lib/use-translation.ts:15 | splitting undoes joining: dot-free segments are the only decomposition of a key |
| Translation.SplitDotFree | lib/use-translation.ts:15 | a key without dots splits into the single segment `[key]` |
| Translation.Walk | lib/use-translation.ts:18-24 | the loop's descent: an empty path stays at the node, and a non-empty path from a string fails (line 19's `typeof value === 'object'`); `WalkChain` and `ChainOfWalk` characterise the rest |
| Translation.WalkAppend | lib/use-translation.ts:18-24 | walking a path `p + q` is walking `p` and then walking `q` from where `p` ended, a failure staying a failure |
| Translation.WalkChain | lib/use-translation.ts:18-24 | if each segment names an existing child of the value reached so far, the walk ends at the last value of that chain |
| Translation.ChainOfWalk | lib/use-translation.ts:18-24 | conversely, a successful walk yields such a chain of existing children |
| Translation.WalkMiss | lib/use-translation.ts:19-23 | if at some level the value reached is a string or has no entry for the segment, the walk fails |
| Translation.EffectiveLanguage | lib/use-translation.ts:12 | the language is the setting's value when it is present and non-empty, and `'en'` otherwise; it is never empty |
| Translation.LanguageCode | lib/use-translation.ts:11-12 | a settings-store language is read as `'en'` or `'ur'`, and each code comes from exactly one language |
| Translation.StoredLanguageHasTable | lib/use-translation.ts:5-12 | a language from the settings store is used unchanged, and it always has a locale table |
| Translation.TableFor | lib/use-translation.ts:16 | `translations[language]` is a table exactly for `'en'` and `'ur'`, the respective locale file; any other code gives no table |
| Translation.Lookup | lib/use-translation.ts:15-26 | the hook's result is either the key itself or a value found by walking the key's segments; with no table it is always the key |
| Translation.T | lib/use-translation.ts:14-27 | the loop returns exactly `Lookup` on the current language's table (null for an unknown language): the value at the path, or the key |
| Translation.LookupFound | lib/use-translation.ts:18-26 | when every segment exists in turn, `t` returns the value at the end of the path, whether a string or a sub-object |
| Translation.LookupMissing | lib/use-translation.ts:19-23 | when a segment is missing at its level, or a string is reached before the key is used up, `t` returns the key unchanged |
| Translation.LookupOnlyAlongPath | lib/use-translation.ts:18-26 | any result other than the key is reached through a chain of existing segments |
| Translation.UnknownLanguage | lib/use-translation.ts:16-22 | for a language with no table, every key falls back to itself |
| Translation.DotFreeKey | lib/use-translation.ts:15-20 | a key with no dots is one top-level lookup: the entry if the table has it, else the key |
| Translation.OnlyCurrentLanguage | lib/use-translation.ts:16 | only the current language's table is consulted; the other table can be anything |
| Accessibility.Get | lib/accessibility-context.tsx:5-24 | reading a field yields a value of that field's declared type |
| Accessibility.SameFieldsSameSettings | lib/accessibility-context.tsx:5-24 | two records that agree on all fourteen keys are equal, so the lemmas below fix a record completely |
| Accessibility.DefaultValues | lib/accessibility-context.tsx:35-54 | the constant `Default` (`defaultSettings`) is English, medium text and no colour filter, with all eleven boolean preferences off |
| Accessibility.Update | lib/accessibility-context.tsx:87-92 | after `updateSetting(k, v)`, field `k` holds `v` |
| Accessibility.UpdateOthers | lib/accessibility-context.tsx:91 | every field other than `k` keeps its previous value |
| Accessibility.UpdateSameValue | lib/accessibility-context.tsx:91 | setting a field to its current value changes nothing |
| Accessibility.UpdateTwice | lib/accessibility-context.tsx:91 | a second update of the same field overrides the first |
| Accessibility.Reset | lib/accessibility-context.tsx:94-96 | `resetSettings` gives the defaults in every field, whatever the prior record |
| Accessibility.ResetIdempotent | lib/accessibility-context.tsx:94-96 | resetting twice equals resetting once, and a reset forgets any earlier update |
| Accessibility.FontPx | lib/accessibility-context.tsx:117-123 | `fontSizeMap` gives 14 px for small, rising by 2 px per size step |
| Accessibility.FontPxIncreasing | lib/accessibility-context.tsx:117-123 | the font size is 14, 16, 18 or 20 px and grows strictly with the size order small < medium < large < extra-large |
| Accessibility.NameOfClassOf | lib/accessibility-context.tsx:113-206 | reading a class name into a token and writing it back gives the same name |
| Accessibility.ClassOfName | lib/accessibility-context.tsx:113-206 | each managed class is read back from its own name, so the fourteen managed names are distinct |
| Accessibility.CanonicalRoundTrip | lib/accessibility-context.tsx:113-206 | on a canonical class list, every token, managed or not, is read back from its own name |
| Accessibility.ClassOfOther | lib/accessibility-context.tsx:113-206 | a class name that reads as an unmanaged token is none of the fourteen managed names, so class lists read from the document are canonical |
| Accessibility.ModeClassName | lib/accessibility-context.tsx:161-164 | the class added for a colour-blind mode carries exactly the mode's name |
| Accessibility.Applied | lib/accessibility-context.tsx:125-204 | the classes after applying: the unmanaged part of the old list unchanged, and the managed part exactly the classes the settings request |
| Accessibility.FlagClassInjective | lib/accessibility-context.tsx:125-204 | distinct boolean preferences toggle distinct classes |
| Accessibility.FlagClassIff | lib/accessibility-context.tsx:125-204 | after applying, each boolean preference's class is present exactly when the preference is true |
| Accessibility.ColorClassExclusive | lib/accessibility-context.tsx:161-164 | after applying, no colour class is present for `'none'`, and otherwise exactly the selected mode's class is |
| Accessibility.UnmanagedPreserved | lib/accessibility-context.tsx:113-206 | classes outside the managed list are neither added nor removed |
| Accessibility.AppliedCanonical | lib/accessibility-context.tsx:113-206 | applying never makes two tokens stand for the same class name |
| Accessibility.AppliedIdempotent | lib/accessibility-context.tsx:113-206 | applying the same settings twice leaves the classes of applying once |
| Accessibility.AppliedDefault | lib/accessibility-context.tsx:35-54 | the defaults give 16 px and remove every managed class, keeping the rest |
| Accessibility.StepsAreApplied | lib/accessibility-context.tsx:125-204 | the source's sequence of add/remove calls ends in exactly `Applied(before, settings)` |
| Accessibility.DocumentRoot.Toggle | lib/accessibility-context.tsx:125-204 | `classList.add(c)` when the flag is on and `classList.remove(c)` when it is off, for a managed class; an already canonical list stays canonical |
| Accessibility.DocumentRoot.Apply | lib/accessibility-context.tsx:113-206 | on a canonical root: sets the font size to the size's pixel value and the class list to `Applied(old classes, settings)`, one add/remove at a time, and the list stays canonical |
| Toasts.TypeOrDefault | components/ui/Toast.tsx:58 | a missing type becomes `'info'`; a supplied type is kept |
| Toasts.WithoutId | components/ui/Toast.tsx:69 | `prev.filter(t => t.id !== id)` never grows the list, and no survivor carries `id` |
| Toasts.WithoutIdMembers | components/ui/Toast.tsx:69 | the toasts left by `removeToast(id)` are exactly those whose id differs from `id` |
| Toasts.WithoutIdAppend | components/ui/Toast.tsx:69 | filtering a concatenation filters each part, so the survivors keep their relative order |
| Toasts.WithoutAbsentId | components/ui/Toast.tsx:69 | removing an id that no toast carries leaves the list unchanged |
| Toasts.WithoutIdGone | components/ui/Toast.tsx:69 | after removal no toast carries the id |
| Toasts.RemoveTwice | components/ui/Toast.tsx:69 | removing the same id twice equals removing it once |
| Toasts.AddThenRemove | components/ui/Toast.tsx:58-70 | adding a toast with a fresh id and then removing that id restores the previous list |
| Toasts.ToastList.constructor | components/ui/Toast.tsx:56 | the toast list starts empty |
| Toasts.ToastList.AddToast | components/ui/Toast.tsx:58-60 | appends exactly one toast at the end with the given id, message and (defaulted) type; earlier toasts are unchanged |
| Toasts.ToastList.RemoveToast | components/ui/Toast.tsx:68-70 | the list becomes the filter of the old list by id |
| Location.KeySuffix | lib/location-context.tsx:32-33 | the key suffix is the user id when a user is signed in (a non-empty id), and `guest` otherwise |
| Location.LocationKey | lib/location-context.tsx:32 | the location key is `foodhub_location_` followed by that suffix |
| Location.PlacesKey | lib/location-context.tsx:33 | the saved-places key is `foodhub_saved_places_` followed by that suffix |
| Location.KeysPerUser | lib/location-context.tsx:32-33 | two distinct signed-in users get distinct location keys and distinct places keys |
| Location.KeysNeverClash | lib/location-context.tsx:32-33 | no location key equals any places key, whatever the users |
| Location.GuestIdSharesGuestKeys | lib/location-context.tsx:32-33 | the user id `guest` maps to the guest's keys |
| Location.LoadedPlaces | lib/location-context.tsx:42-51 | with no stored text, or empty text, the places are exactly Home (id 1) and Work (id 2); otherwise the parsed stored list |
| Location.LocationStore.constructor | lib/location-context.tsx:25-28 | the provider's initial state: the default address `123 Main St, Downtown`, no places and an unset flag, with the given user and storage |
| Location.GetItem | lib/location-context.tsx:35-42 | `localStorage.getItem(key)` is null exactly when the key is absent, and otherwise is the stored text |
| Location.LocationStore.SetCurrentAddress | lib/location-context.tsx:26 | the `currentAddress` state setter: the address becomes the given one, and nothing else changes |
| Location.LocationStore.SetLocationUpdated | lib/location-context.tsx:27 | the `locationUpdated` state setter: the flag becomes the given value, and nothing else changes |
| Location.LocationStore.Load | lib/location-context.tsx:31-52 | the address becomes the stored non-empty string or `123 Main St, Downtown`, and the places become `LoadedPlaces` of the stored text; storage is not touched |
| Location.LocationStore.ChangeUser | lib/location-context.tsx:25-52 | a user change reloads the address and places from the new user's keys |
| Location.LocationStore.SaveLocation | lib/location-context.tsx:55-58 | writes the current address under the user's location key and nothing else |
| Location.LocationStore.SavePlaces | lib/location-context.tsx:61-66 | writes the printed places under the user's places key only when the list is non-empty; an empty list leaves storage untouched |
| Location.LocationStore.AddSavedPlace | lib/location-context.tsx:68-74 | appends one place at the end with the given type, address and the supplied id; earlier places are unchanged |
| Location.SaveThenLoad | lib/location-context.tsx:42-66 | writing non-empty places and loading them again gives them back, when parse inverts print |
| RestaurantDb.Reshape | lib/db.ts:29-33 | the reshaped record keeps the restaurant, copies `deliveryTime` into `delivery_time`, and sets `is_closed` to 1 when closed and 0 otherwise |
| RestaurantDb.GetAll | lib/db.ts:27-34 | one reshaped record per static restaurant, with the same length and order |
| RestaurantDb.FindFirst | lib/db.ts:37-47 | `staticRestaurants.find(p)` is none exactly when no restaurant satisfies `p`; otherwise it is the first restaurant that does |
| RestaurantDb.GetBySlug | lib/db.ts:36-44 | null exactly when no restaurant has the slug, else the first such restaurant reshaped |
| RestaurantDb.GetById | lib/db.ts:46-54 | null exactly when no restaurant has the id, else the first such restaurant reshaped |
| RestaurantDb.MenuOf | lib/db.ts:74-77 | the menu of the first restaurant with the id, or the empty list when none has it |
| RestaurantDb.Lower | lib/db.ts:60 | lower-casing keeps the length and maps every character through ASCII `toLowerCase` |
| RestaurantDb.LowerIdempotent | lib/db.ts:60-63 | lower-casing twice equals lower-casing once |
| RestaurantDb.Includes | lib/db.ts:62-63 | `includes` is true exactly when the needle occurs at some position of the string |
| RestaurantDb.Matches | lib/db.ts:61-63 | the filter test holds exactly when the lower-cased query occurs at some position of the lower-cased name or of the lower-cased cuisine |
| RestaurantDb.Filter | lib/db.ts:61-63 | the filter never grows the list, and every survivor's name or cuisine contains the lower-cased query |
| RestaurantDb.Search | lib/db.ts:59-69 | `search` returns at most one row per restaurant, each a reshaped restaurant matching the lower-cased query |
| RestaurantDb.FilterMembers | lib/db.ts:61-63 | a restaurant survives the filter exactly when it is listed and its lower-cased name or cuisine contains the lower-cased query |
| RestaurantDb.FilterAppend | lib/db.ts:61-63 | filtering a concatenation filters each part, so matches keep the static list's order |
| RestaurantDb.FilterEmptyQuery | lib/db.ts:61-63 | the empty query matches every restaurant, so the filter keeps the whole list |
| RestaurantDb.SearchMembers | lib/db.ts:59-69 | a record is in the search result exactly when it reshapes a listed restaurant that matches the query |
| RestaurantDb.SearchAppend | lib/db.ts:59-69 | search results keep the static list's order |
| RestaurantDb.SearchEmpty | lib/db.ts:59-69 | an empty query matches every restaurant, so the result equals `getAll` |
| RestaurantDb.SearchCaseInsensitive | lib/db.ts:60 | searching for the lower-cased query gives the same result as the original query |

## Left out

- The voice-command assistant in app/(tabs)/accessibility/page.tsx is not part of this model. It is a page-level interaction engine that drives speech recognition, speech synthesis and timers, outside the shared libraries modelled here.
- app/location/page.tsx, components/layout/BottomNav.tsx, components/ui/SpeakButton.tsx and the `ToastContainer` rendering are not part of this model. They are presentation and browser APIs (microphone simulation, `Math.random` addresses, drag offsets, navigation, speech synthesis, the `99+` badge).
- Toast id generation with `Math.random` and the 3000 ms auto-remove timer are left out, because they involve randomness and timers. The id is an input of `AddToast`.
- Local-storage reading and writing of the accessibility settings, with `JSON.parse` and its error logging (lib/accessibility-context.tsx:63-85), are left out. That is I/O and JSON parsing.
- Location.LocationStore.Load: `JSON.parse` is a total function parameter, so malformed stored text, on which the source throws, is not modelled.
- React's effect scheduling is not modelled. Each effect is a method that callers run in order. For example, the mount-time write of the initial address, which runs before the load's update lands, is not modelled.
- `Date.now()` is not modelled; the place id is an input of `AddSavedPlace`.
- RestaurantDb.Lower: lower-cases ASCII letters only. JavaScript's full Unicode `toLowerCase` is not modelled.
- Translation.Lookup: a locale table is a tree of objects and string leaves. JSON arrays, numbers, booleans and null, and the inherited properties that JavaScript's `in` also sees (such as `constructor`), are not modelled.
- Translation.TableFor: `translations[language]` also sees inherited properties of the `translations` object. For example, `'__proto__'` yields `Object.prototype`, and `t('hasOwnProperty')` then returns a function. The model gives no table for any code other than `'en'` and `'ur'`, so it returns the key there.
- The root's class list is a set of class tokens, so the order in which DOMTokenList keeps class names is not modelled. `root.style.fontSize` is kept as a number of pixels rather than the string `'14px'`.
- The restaurant, menu-item and saved-place records keep only the fields the model uses. The spread copies every other field unchanged; those fields are not modelled. Among them is the optional `icon` of a saved place, which `addSavedPlace` copies through.
- The constant stubs in lib/db.ts are not modelled: `create`, `update`, `delete`, `menuDb.getById`, `menuDb.search`, `reviewsDb`, `ordersDb`, `usersDb` and `initializeDatabase` each return a fixed value or log.
- The errors thrown by `useAccessibility` and `useLocation` outside their providers are not modelled, because they are a React context-wiring check.
- lib/auth-context.tsx, the API route handlers and app/layout.tsx are not part of this model. They wrap a hosted identity provider, HTTP, time and random ids, and analytics.
