/**
 * The Decorator chain of the image-filter example: a base image wrapped in
 * zero or more filters (black-and-white, sepia, blur).
 *
 * Every `Console.WriteLine` call the program makes is modelled as one
 * element of a returned `seq<string>`, so what `Display` prints becomes a
 * value that the lemmas below can talk about.
 */
module ImageFilter {

  /** The prefix of the line the BaseImage constructor writes. */
  const LoadPrefix: string := "Memuat gambar asli: "
  /** The prefix of the line BaseImage.Display writes. */
  const DisplayPrefix: string := "Menampilkan gambar dasar: "

  /**
   * An image chain. One constructor per class of the C# example: the leaf
   * BaseImage holds a file name, each filter decorator holds exactly one
   * wrapped image. Fields are set once, at construction.
   */
  datatype Image =
    | BaseImage(filename: string)
    | BlackAndWhiteFilter(inner: Image)
    | SepiaFilter(inner: Image)
    | BlurFilter(inner: Image)

  /** The three filter kinds, used for the flat view of a chain. */
  datatype Filter = BlackAndWhite | Sepia | Blur

  /** The line a filter writes after its wrapped image has been displayed. */
  function FilterLine(f: Filter): string
  {
    match f
    case BlackAndWhite => "Menerapkan filter Hitam Putih."
    case Sepia => "Menerapkan filter Sepia."
    case Blur => "Menerapkan filter Blur."
  }

  /** The line BaseImage.Display writes for `filename`. */
  function BaseLine(filename: string): string
  {
    DisplayPrefix + filename
  }

  // ---------------------------------------------------------------------
  // Construction

  /**
   * `new BaseImage(filename)`: the new image and the lines its constructor
   * writes.
   */
  function NewBaseImage(filename: string): (r: (Image, seq<string>))
    ensures r.0.BaseImage? && r.0.filename == filename
    ensures |r.1| == 1
    ensures |LoadPrefix| <= |r.1[0]|
    ensures r.1[0][..|LoadPrefix|] == LoadPrefix && r.1[0][|LoadPrefix|..] == filename
  {
    (BaseImage(filename), [LoadPrefix + filename])
  }

  /**
   * `new BlackAndWhiteFilter(img)`, `new SepiaFilter(img)` or
   * `new BlurFilter(img)`: the decorator constructors store the wrapped
   * image and write nothing. Displaying the result gives the wrapped
   * image's output, unchanged, followed by exactly one line of the filter.
   */
  function Wrap(f: Filter, img: Image): (r: (Image, seq<string>))
    ensures !r.0.BaseImage? && r.0.inner == img
    ensures Filters(r.0) == Filters(img) + [f] && BaseName(r.0) == BaseName(img)
    ensures Display(r.0) == Display(img) + [FilterLine(f)]
    ensures r.1 == []
  {
    match f
    case BlackAndWhite => (BlackAndWhiteFilter(img), [])
    case Sepia => (SepiaFilter(img), [])
    case Blur => (BlurFilter(img), [])
  }

  // ---------------------------------------------------------------------
  // The flat view of a chain: its base file name and its filters,
  // innermost first

  /** The number of filters wrapped around the base image. */
  function Depth(img: Image): nat
  {
    match img
    case BaseImage(_) => 0
    case _ => Depth(img.inner) + 1
  }

  /** The file name held by the base image at the bottom of the chain. */
  function BaseName(img: Image): string
  {
    match img
    case BaseImage(filename) => filename
    case _ => BaseName(img.inner)
  }

  /** The filters of the chain, innermost first. */
  function Filters(img: Image): (fs: seq<Filter>)
    ensures |fs| == Depth(img)
  {
    match img
    case BaseImage(_) => []
    case BlackAndWhiteFilter(inner) => Filters(inner) + [BlackAndWhite]
    case SepiaFilter(inner) => Filters(inner) + [Sepia]
    case BlurFilter(inner) => Filters(inner) + [Blur]
  }

  /**
   * The chain that wraps `new BaseImage(filename)` in the filters `fs`,
   * `fs[0]` innermost: the inverse of the flat view.
   */
  function Build(filename: string, fs: seq<Filter>): (r: Image)
    ensures BaseName(r) == filename && Filters(r) == fs
    ensures Depth(r) == |fs|
  {
    if fs == [] then BaseImage(filename)
    else
      var inner := Build(filename, fs[..|fs| - 1]);
      match fs[|fs| - 1]
      case BlackAndWhite => BlackAndWhiteFilter(inner)
      case Sepia => SepiaFilter(inner)
      case Blur => BlurFilter(inner)
  }

  /** Flattening a chain and building it again gives back the same chain. */
  lemma {:induction false} BuildOfParts(img: Image)
    ensures Build(BaseName(img), Filters(img)) == img
  {
    match img
    case BaseImage(_) =>
    case BlackAndWhiteFilter(inner) =>
      BuildOfParts(inner);
      assert Filters(img)[..|Filters(img)| - 1] == Filters(inner);
    case SepiaFilter(inner) =>
      BuildOfParts(inner);
      assert Filters(img)[..|Filters(img)| - 1] == Filters(inner);
    case BlurFilter(inner) =>
      BuildOfParts(inner);
      assert Filters(img)[..|Filters(img)| - 1] == Filters(inner);
  }

  // ---------------------------------------------------------------------
  // Display

  /**
   * `img.Display()`: the lines written, in order. Every filter first lets
   * its wrapped image display (through the decorator's default Display)
   * and then writes its own line.
   */
  function Display(img: Image): (out: seq<string>)
    ensures |out| == Depth(img) + 1
    ensures out[0] == BaseLine(BaseName(img))
    decreases img, 0
  {
    match img
    case BaseImage(filename) => [BaseLine(filename)]
    case BlackAndWhiteFilter(inner) => DecoratorDisplay(inner) + [FilterLine(BlackAndWhite)]
    case SepiaFilter(inner) => DecoratorDisplay(inner) + [FilterLine(Sepia)]
    case BlurFilter(inner) => DecoratorDisplay(inner) + [FilterLine(Blur)]
  }

  /**
   * The abstract decorator's default Display, which every filter calls
   * first: it only delegates to the wrapped image.
   */
  function DecoratorDisplay(wrapped: Image): (out: seq<string>)
    ensures out == Display(wrapped)
    decreases wrapped, 1
  {
    Display(wrapped)
  }

  /**
   * What the decorator's default Display delegates to is the whole output
   * of the wrapped chain: its base image's line, then one line per filter,
   * innermost first.
   */
  lemma {:induction false} DecoratorDelegates(wrapped: Image)
    ensures DecoratorDisplay(wrapped) == [BaseLine(BaseName(wrapped))] + FilterLines(Filters(wrapped))
  {
    DisplayIsBaseThenFilters(wrapped);
  }

  /** The lines the filters `fs` write, in the order of `fs`. */
  function FilterLines(fs: seq<Filter>): (lines: seq<string>)
  {
    seq(|fs|, i requires 0 <= i < |fs| => FilterLine(fs[i]))
  }

  /**
   * The whole output of a chain, described without recursion: the base
   * image's line, then one line per filter, innermost first.
   */
  lemma {:induction false} DisplayIsBaseThenFilters(img: Image)
    ensures Display(img) == [BaseLine(BaseName(img))] + FilterLines(Filters(img))
  {
    match img
    case BaseImage(_) =>
    case BlackAndWhiteFilter(inner) =>
      DisplayIsBaseThenFilters(inner);
      FilterLinesSnoc(Filters(inner), BlackAndWhite);
    case SepiaFilter(inner) =>
      DisplayIsBaseThenFilters(inner);
      FilterLinesSnoc(Filters(inner), Sepia);
    case BlurFilter(inner) =>
      DisplayIsBaseThenFilters(inner);
      FilterLinesSnoc(Filters(inner), Blur);
  }

  /** The step `DisplayIsBaseThenFilters` needs: one more filter adds its line at the end. */
  lemma FilterLinesSnoc(fs: seq<Filter>, f: Filter)
    ensures FilterLines(fs + [f]) == FilterLines(fs) + [FilterLine(f)]
  {
  }

  /**
   * A chain of N filters around `new BaseImage(filename)` displays N + 1
   * lines: the base image's line first, then the filters' lines in the
   * order they were wrapped, innermost first.
   */
  lemma {:induction false} DisplayOfChain(filename: string, fs: seq<Filter>)
    ensures Display(Build(filename, fs)) == [BaseLine(filename)] + FilterLines(fs)
    ensures |Display(Build(filename, fs))| == |fs| + 1
  {
    DisplayIsBaseThenFilters(Build(filename, fs));
  }

  /** Line `i + 1` of the output is the line of the `i`-th filter from the inside. */
  lemma {:induction false} FilterLineAt(img: Image, i: nat)
    requires i < Depth(img)
    ensures Display(img)[i + 1] == FilterLine(Filters(img)[i])
  {
    var fs := Filters(img);
    DisplayIsBaseThenFilters(img);
    assert Display(img)[i + 1] == FilterLines(fs)[i];
  }

  /** The last line is the own line of the outermost filter. */
  lemma {:induction false} LastLineIsOutermostFilter(img: Image)
    requires !img.BaseImage?
    ensures Display(img)[|Display(img)| - 1] == FilterLine(Filters(img)[Depth(img) - 1])
  {
    FilterLineAt(img, Depth(img) - 1);
  }

  /** No filter line can be mistaken for a base image line. */
  lemma FilterLineIsNotBaseLine(f: Filter, filename: string)
    ensures FilterLine(f) != BaseLine(filename)
  {
    assert BaseLine(filename)[3] == 'a';
    assert FilterLine(f)[3] == 'e';
  }

  /** Distinct filters write distinct lines. */
  lemma FilterLineInjective(f: Filter, g: Filter)
    ensures FilterLine(f) == FilterLine(g) <==> f == g
  {
  }

  /** The base image line is written once, and it is the first line. */
  lemma {:induction false} BaseLineOnlyFirst(img: Image)
    ensures forall i | 1 <= i < |Display(img)| :: Display(img)[i] != Display(img)[0]
  {
    forall i | 1 <= i < |Display(img)|
      ensures Display(img)[i] != Display(img)[0]
    {
      FilterLineAt(img, i - 1);
      FilterLineIsNotBaseLine(Filters(img)[i - 1], BaseName(img));
    }
  }

  /** `inner` is `outer` itself or a chain that `outer` wraps, at any depth. */
  predicate Within(inner: Image, outer: Image)
    decreases outer
  {
    inner == outer || (!outer.BaseImage? && Within(inner, outer.inner))
  }

  /** The filters of a chain that `outer` wraps are the innermost filters of `outer`. */
  lemma {:induction false} FiltersPrefix(inner: Image, outer: Image)
    requires Within(inner, outer)
    ensures Filters(inner) <= Filters(outer)
    decreases outer
  {
    if inner != outer {
      FiltersPrefix(inner, outer.inner);
    }
  }

  /**
   * Wrapping never changes the inner output: the output of any chain that
   * `outer` wraps is a prefix of `outer`'s output, followed by one line per
   * filter in between, innermost first.
   */
  lemma {:induction false} WrappedOutputIsPrefix(inner: Image, outer: Image)
    requires Within(inner, outer)
    ensures Depth(inner) <= Depth(outer)
    ensures Display(inner) <= Display(outer)
    ensures |Display(outer)| - |Display(inner)| == Depth(outer) - Depth(inner)
    ensures Display(outer)[|Display(inner)|..] == FilterLines(Filters(outer)[Depth(inner)..])
    decreases outer
  {
    if inner != outer {
      WrappedOutputIsPrefix(inner, outer.inner);
      assert Display(outer)[..|Display(outer.inner)|] == Display(outer.inner);
    }
    FiltersPrefix(inner, outer);
    DisplayIsBaseThenFilters(outer);
    var fs, d := Filters(outer), Depth(inner);
    forall k | 0 <= k < |fs| - d
      ensures Display(outer)[|Display(inner)|..][k] == FilterLines(fs[d..])[k]
    {
      assert Display(outer)[d + 1 + k] == FilterLines(fs)[d + k];
    }
  }

  /**
   * Wrapping order decides output order: Sepia around Blur writes the blur
   * line before the sepia line, Blur around Sepia the other way round, and
   * the two outputs differ.
   */
  lemma WrappingOrderDecidesOutput(img: Image)
    ensures Display(SepiaFilter(BlurFilter(img))) == Display(img) + [FilterLine(Blur), FilterLine(Sepia)]
    ensures Display(BlurFilter(SepiaFilter(img))) == Display(img) + [FilterLine(Sepia), FilterLine(Blur)]
    ensures Display(SepiaFilter(BlurFilter(img))) != Display(BlurFilter(SepiaFilter(img)))
  {
    var n := |Display(img)|;
    assert Display(SepiaFilter(BlurFilter(img)))[n] == FilterLine(Blur);
    assert Display(BlurFilter(SepiaFilter(img)))[n] == FilterLine(Sepia);
    FilterLineInjective(Blur, Sepia);
  }

  /**
   * The output determines the chain: two chains that display the same
   * lines hold the same file name and the same filters in the same order.
   */
  lemma {:induction false} DisplayDeterminesChain(a: Image, b: Image)
    requires Display(a) == Display(b)
    ensures a == b
  {
    var fa, fb := Filters(a), Filters(b);
    var na, nb := BaseName(a), BaseName(b);
    assert BaseLine(na) == Display(a)[0] == Display(b)[0] == BaseLine(nb);
    assert na == BaseLine(na)[|DisplayPrefix|..];
    assert nb == BaseLine(nb)[|DisplayPrefix|..];
    assert |fa| == |fb|;
    forall i | 0 <= i < |fa|
      ensures fa[i] == fb[i]
    {
      FilterLineAt(a, i);
      FilterLineAt(b, i);
      FilterLineInjective(fa[i], fb[i]);
    }
    assert fa == fb;
    BuildOfParts(a);
    BuildOfParts(b);
  }

  // ---------------------------------------------------------------------
  // One lemma per concrete filter class

  /** BaseImage.Display writes one line: the display prefix, then the file name. */
  lemma BaseImageDisplay(filename: string)
    ensures Display(BaseImage(filename)) == ["Menampilkan gambar dasar: " + filename]
  {
  }

  /** BlackAndWhiteFilter.Display: the wrapped output, then its own line. */
  lemma BlackAndWhiteDisplay(img: Image)
    ensures Display(BlackAndWhiteFilter(img)) == Display(img) + ["Menerapkan filter Hitam Putih."]
  {
  }

  /** SepiaFilter.Display: the wrapped output, then its own line. */
  lemma SepiaDisplay(img: Image)
    ensures Display(SepiaFilter(img)) == Display(img) + ["Menerapkan filter Sepia."]
  {
  }

  /** BlurFilter.Display: the wrapped output, then its own line. */
  lemma BlurDisplay(img: Image)
    ensures Display(BlurFilter(img)) == Display(img) + ["Menerapkan filter Blur."]
  {
  }
}
