# Image filter Decorator chain, in Dafny

This project models the image-filter example, which illustrates the Decorator pattern. A
`BaseImage` holds a file name. The filter decorators `BlackAndWhiteFilter`, `SepiaFilter` and
`BlurFilter` each wrap exactly one other image. When a chain is displayed, the call goes down
to the base image first. On the way back, every filter adds its own line of output.

The model takes this form:

- The chain is a closed datatype `ImageFilter.Image`, with one constructor per class:
  `BaseImage(filename) | BlackAndWhiteFilter(inner) | SepiaFilter(inner) | BlurFilter(inner)`.
  Fields are set only at construction, so values are a faithful model of the objects.
- Console output is a returned `seq<string>`, one element per `Console.WriteLine` call, with the exact
  Indonesian texts of the C# program:
  - "Memuat gambar asli: " + file name, from the base image's constructor;
  - "Menampilkan gambar dasar: " + file name, from the base image's `Display`; the
    function `BaseLine` gives this line;
  - "Menerapkan filter Hitam Putih.", "Menerapkan filter Sepia." and
    "Menerapkan filter Blur.", from the three filters' `ApplyBlackAndWhiteFilter`,
    `ApplySepiaFilter` and `ApplyBlurFilter`; the function `FilterLine` gives these
    lines, one per value of the enumeration `Filter`.
- `Display` is a recursive function. The abstract decorator's default `Display` is
  `DecoratorDisplay`, which is mutually recursive with it.
- `Wrap` models the three decorator constructors. Like `NewBaseImage`, it returns the new
  chain together with the lines its constructor writes, which is none.
- The flat view of a chain is its base file name (`BaseName`) and its filters innermost first
  (`Filters`). `Build` is the inverse of that view, and `DisplayIsBaseThenFilters` describes
  the whole output without recursion.
- The chains built by the client's `Main` are concrete lemmas in module
  `ImageProcessorClient`.

Because `Display` is a function, displaying the same chain twice gives the same lines. The
C# classes guarantee the same thing: their `Display` methods assign no field.

## Model

| member | source | states |
|---|---|---|
| `ImageFilter.NewBaseImage` | img-filter/Program.cs:14-18 | constructing a base image stores the file name and writes exactly one line: "Memuat gambar asli: " followed by the file name |
| `ImageFilter.Wrap` | img-filter/Program.cs:32-35 | a decorator constructor stores the wrapped image as its only inner image and writes no line (its output list is empty); the new chain has the same base and one more filter, outermost; its output is the wrapped output followed by exactly one filter line |
| `ImageFilter.DecoratorDelegates` | img-filter/Program.cs:38-41 | the abstract decorator's default Display delegates to the wrapped chain: its output is that chain's base image line followed by one line per filter of that chain, innermost first |
| `ImageFilter.Display` | img-filter/Program.cs:20-89 | displaying a chain of N filters makes N + 1 `Console.WriteLine` calls, and the first writes the base image's line for the file name at the bottom of the chain |
| `ImageFilter.Build` | img-filter/Program.cs:149-152 | wrapping a base image in a list of filters, innermost first, gives a chain with that file name and exactly those filters in that order |
| `ImageFilter.BuildOfParts` | img-filter/Program.cs:29-35 | every chain is a base image wrapped in its filters: rebuilding from its file name and its filters gives back the same chain |
| `ImageFilter.DisplayIsBaseThenFilters` | img-filter/Program.cs:155-157 | the output of any chain is the base image's line followed by one line per filter, from innermost to outermost |
| `ImageFilter.DisplayOfChain` | img-filter/Program.cs:146-147 | for any file name and any list of N filters, the chain built from them writes N + 1 lines: the base line, then the filters' lines in wrapping order |
| `ImageFilter.FilterLineAt` | img-filter/Program.cs:152 | line i + 1 of the output is the line of the i-th filter counted from the inside |
| `ImageFilter.LastLineIsOutermostFilter` | img-filter/Program.cs:53-54 | the last line of a filtered chain is the outermost filter's own line |
| `ImageFilter.FilterLineIsNotBaseLine` | img-filter/Program.cs:20-23 | no filter line is equal to a base image display line, whatever the file name |
| `ImageFilter.FilterLineInjective` | img-filter/Program.cs:57-94 | the three filters write three distinct lines: two filter lines are equal exactly when the filters are the same |
| `ImageFilter.BaseLineOnlyFirst` | img-filter/Program.cs:155-157 | the base image line is written by the first `Console.WriteLine` call only; no later call writes the same text |
| `ImageFilter.WrappedOutputIsPrefix` | img-filter/Program.cs:70-71 | for any chain that a chain wraps, at any depth, the inner output is an unchanged prefix of the outer output, and what follows it is exactly the lines of the filters in between, innermost first |
| `ImageFilter.WrappingOrderDecidesOutput` | img-filter/Program.cs:122-130 | Sepia around Blur writes [inner output, blur, sepia]; Blur around Sepia writes [inner output, sepia, blur]; the two outputs differ |
| `ImageFilter.DisplayDeterminesChain` | img-filter/Program.cs:152 | the converse of wrapping order deciding the output: the output determines the chain, so two chains whose `Console.WriteLine` calls write the same texts in the same order are the same chain, with the same file name and the same filters in the same order (a null file name is not represented; see "## Left out") |
| `ImageFilter.BaseImageDisplay` | img-filter/Program.cs:20-23 | BaseImage.Display writes exactly one line, "Menampilkan gambar dasar: " followed by the file name |
| `ImageFilter.BlackAndWhiteDisplay` | img-filter/Program.cs:51-60 | BlackAndWhiteFilter.Display writes the wrapped output and then exactly "Menerapkan filter Hitam Putih." |
| `ImageFilter.SepiaDisplay` | img-filter/Program.cs:68-77 | SepiaFilter.Display writes the wrapped output and then exactly "Menerapkan filter Sepia." |
| `ImageFilter.BlurDisplay` | img-filter/Program.cs:85-94 | BlurFilter.Display writes the wrapped output and then exactly "Menerapkan filter Blur." |
| `ImageProcessorClient.LoadPhoto` | img-filter/Program.cs:105 | creating the photo "FotoLiburan.jpg" writes only its loading line |
| `ImageProcessorClient.ShowOriginal` | img-filter/Program.cs:105-107 | the photo alone displays one line |
| `ImageProcessorClient.ShowBlackAndWhite` | img-filter/Program.cs:111-113 | the photo with the black-and-white filter displays the base line, then the black-and-white line |
| `ImageProcessorClient.ShowBlackAndWhiteThenSepia` | img-filter/Program.cs:117-119 | Sepia around the black-and-white chain displays base, black-and-white, sepia |
| `ImageProcessorClient.ShowBlurThenSepia` | img-filter/Program.cs:123-126 | Sepia around Blur around the photo displays base, blur, sepia |
| `ImageProcessorClient.ShowSepiaThenBlur` | img-filter/Program.cs:129-132 | Blur around Sepia around the photo displays base, sepia, blur |

## Left out

- Console I/O: lines are returned as sequences. Nothing is written, and no interleaving with other output is modelled.
- The headers and separator lines that `Main` prints between its demonstrations (img-filter/Program.cs:102-133). They are demonstration text; the chains `Main` builds are kept as lemmas.
- A null wrapped image: the decorator constructor does not check its argument. A datatype value always has an inner image, so this case cannot be expressed.
- Open subclassing and virtual dispatch: the set of image kinds is closed to the base image and the three filters.
- Object identity and sharing: `Main` wraps the same `BaseImage` object in several chains. Nothing is mutated after construction, so the value model behaves the same way. Identity itself is not represented.
- Repeated display giving identical output holds by construction, since `Display` is a function. No separate lemma states it.
- Line breaks inside a file name: the model has one element per `Console.WriteLine` call, not per console line. A file name that contains a line break puts more lines on the console than the model has elements. So the line counts of `Display`, `BaseLineOnlyFirst` and `DisplayDeterminesChain` are about calls, not console lines. For example, `BaseImage("a\nMenerapkan filter Blur.")` and `BlurFilter(BaseImage("a"))` put the same lines on the console.
- A null file name: the `BaseImage` constructor accepts any C# string, null included, and string interpolation prints null as the empty string. So `new BaseImage(null)` writes the same lines as `new BaseImage("")`. A Dafny string cannot be null, so the model has no such chain, and `DisplayDeterminesChain` treats the two as one chain.
