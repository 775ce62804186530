/** books_to_scrape/export_data.py: the CSV files and cover image paths of
    the packaged version. The file system is a map from path to the rows
    written there; the bytes of images and the csv module's quoting are not
    modelled. */
module ExportData {
  import opened Text
  import Naming
  import Schema

  /** The directory the CSV files are written to. */
  const ExportsDir := "./exports/"

  /** The directory holding one cover directory per category. */
  const ImageDirectory := "exports/cover_images/"

  /** The number of title characters a cover file name keeps. */
  const TitleLimit := 100

  /** The CSV files on disk: the rows of each file, by path. */
  type Files = map<string, seq<seq<string>>>

  function CsvPath(csvFilename: string): string {
    ExportsDir + csvFilename
  }

  /** `create_csv_file`: opens the file with "w", so an existing file is
      emptied, and writes the header row. */
  function CreateCsvFile(files: Files, csvFilename: string): (r: Files)
    ensures r.Keys == files.Keys + {CsvPath(csvFilename)}
    ensures r[CsvPath(csvFilename)] == [Schema.Header]
    ensures forall p :: p in files && p != CsvPath(csvFilename) ==> r[p] == files[p]
  {
    files[CsvPath(csvFilename) := [Schema.Header]]
  }

  /** `csv_file_append`: opens the file with "a+", which creates a missing
      file, and writes one row at its end. */
  function CsvFileAppend(files: Files, csvFilename: string, info: seq<string>): (r: Files)
    ensures r.Keys == files.Keys + {CsvPath(csvFilename)}
    ensures CsvPath(csvFilename) in files ==> r[CsvPath(csvFilename)] == files[CsvPath(csvFilename)] + [info]
    ensures CsvPath(csvFilename) !in files ==> r[CsvPath(csvFilename)] == [info]
    ensures forall p :: p in files && p != CsvPath(csvFilename) ==> r[p] == files[p]
  {
    var path := CsvPath(csvFilename);
    files[path := (if path in files then files[path] else []) + [info]]
  }

  /** `csv_file_append` for each row in turn. */
  function AppendAll(files: Files, csvFilename: string, infos: seq<seq<string>>): Files
    decreases |infos|
  {
    if infos == [] then files
    else CsvFileAppend(AppendAll(files, csvFilename, infos[..|infos| - 1]), csvFilename, infos[|infos| - 1])
  }

  /** A category's file, created and then appended to once per book, holds
      the header followed by the book rows in order; no other file changes. */
  lemma {:induction false} CreateThenAppend(files: Files, csvFilename: string, infos: seq<seq<string>>)
    ensures var r := AppendAll(CreateCsvFile(files, csvFilename), csvFilename, infos);
      && r.Keys == files.Keys + {CsvPath(csvFilename)}
      && r[CsvPath(csvFilename)] == [Schema.Header] + infos
      && forall p :: p in files && p != CsvPath(csvFilename) ==> r[p] == files[p]
    decreases |infos|
  {
    if infos != [] {
      var init := infos[..|infos| - 1];
      CreateThenAppend(files, csvFilename, init);
      assert [Schema.Header] + init + [infos[|infos| - 1]] == [Schema.Header] + infos;
    }
  }

  /** Creating the file again discards every row written before. */
  lemma RecreateDiscards(files: Files, csvFilename: string, infos: seq<seq<string>>)
    ensures CreateCsvFile(AppendAll(CreateCsvFile(files, csvFilename), csvFilename, infos), csvFilename)
         == CreateCsvFile(files, csvFilename)
  {
    CreateThenAppend(files, csvFilename, infos);
  }

  /** `img_directory + cat_name + '/'`. */
  function CategoryImageDir(catName: string): (dir: string)
    ensures StartsWith(dir, ImageDirectory) && EndsWith(dir, "/")
  {
    var dir := ImageDirectory + catName + "/";
    assert dir[..|ImageDirectory|] == ImageDirectory;
    dir
  }

  /** `upc + "_" + img_name_clean`: the UPC, then the letters, digits and
      spaces of the first 100 title characters with spaces as "_", then ".jpg". */
  function ImageFilename(title: string, upc: string): (f: string)
    ensures StartsWith(f, upc + "_") && EndsWith(f, ".jpg")
    ensures |f| <= |upc| + 1 + TitleLimit + 4
    ensures forall i :: |upc| + 1 <= i < |f| - 4 ==> IsAlnum(f[i]) || f[i] == '_'
  {
    var stem := Naming.CleanTitle(Take(title, TitleLimit));
    var f := upc + "_" + stem + ".jpg";
    assert f[..|upc + "_"|] == upc + "_";
    assert f[|f| - 4..] == ".jpg";
    assert forall i :: |upc| + 1 <= i < |f| - 4 ==> f[i] == stem[i - |upc| - 1];
    f
  }

  /** A short title of letters, digits and spaces keeps all of them, in
      order, with each space as "_". */
  lemma ImageFilenameOfPlainTitle(title: string, upc: string)
    requires |title| <= TitleLimit
    requires forall i :: 0 <= i < |title| ==> IsAlnum(title[i]) || title[i] == ' '
    ensures ImageFilename(title, upc) == upc + "_" + ReplaceAll(title, " ", "_") + ".jpg"
  {
    Naming.CleanTitlePlain(title);
  }

  /** The text before the first "_" of a file name. */
  function UpcOf(f: string): (u: string)
    ensures '_' !in u
    decreases |f|
  {
    if f == [] || f[0] == '_' then [] else [f[0]] + UpcOf(f[1..])
  }

  lemma {:induction false} UpcOfPrefixed(u: string, rest: string)
    requires '_' !in u
    ensures UpcOf(u + "_" + rest) == u
    decreases |u|
  {
    if u != [] {
      assert (u + "_" + rest)[1..] == u[1..] + "_" + rest;
      UpcOfPrefixed(u[1..], rest);
    }
  }

  /** The UPC reads back from the cover file name when it holds no "_". */
  lemma UpcOfImageFilename(title: string, upc: string)
    requires '_' !in upc
    ensures UpcOf(ImageFilename(title, upc)) == upc
  {
    var f := ImageFilename(title, upc);
    assert f == upc + "_" + f[|upc| + 1..];
    UpcOfPrefixed(upc, f[|upc| + 1..]);
  }

  /** Books whose UPCs differ never share a cover file name, whatever their
      titles, as long as no UPC holds "_". */
  lemma ImageFilenameNamesUpc(t1: string, u1: string, t2: string, u2: string)
    requires '_' !in u1 && '_' !in u2
    requires ImageFilename(t1, u1) == ImageFilename(t2, u2)
    ensures u1 == u2
  {
    UpcOfImageFilename(t1, u1);
    UpcOfImageFilename(t2, u2);
  }

  /** The path `download_images` writes a book's cover to. */
  function ImagePath(title: string, upc: string, catName: string): string {
    Naming.PathJoin(CategoryImageDir(catName), ImageFilename(title, upc))
  }

  /** A cover lies in its category's directory, directly below it, under the
      name built from its UPC and title. */
  lemma ImagePathInCategory(title: string, upc: string, catName: string)
    requires upc == [] || upc[0] != '/'
    ensures ImagePath(title, upc, catName) == CategoryImageDir(catName) + ImageFilename(title, upc)
    ensures StartsWith(ImagePath(title, upc, catName), ImageDirectory)
    ensures EndsWith(ImagePath(title, upc, catName), ".jpg")
  {
    var dir, f := CategoryImageDir(catName), ImageFilename(title, upc);
    assert f[..|upc + "_"|] == upc + "_";
    assert f[0] != '/' by {
      if upc == [] {
        assert f[0] == (upc + "_")[0] == '_';
      } else {
        assert f[0] == (upc + "_")[0] == upc[0];
      }
    }
    var p := dir + f;
    assert p[..|ImageDirectory|] == dir[..|ImageDirectory|];
    assert p[|p| - 4..] == f[|f| - 4..];
  }

  /** Two books of one category with different UPCs are written to different
      cover files. */
  lemma ImagePathsDistinct(t1: string, u1: string, t2: string, u2: string, catName: string)
    requires '_' !in u1 && '_' !in u2
    requires (u1 == [] || u1[0] != '/') && (u2 == [] || u2[0] != '/')
    requires u1 != u2
    ensures ImagePath(t1, u1, catName) != ImagePath(t2, u2, catName)
  {
    ImagePathInCategory(t1, u1, catName);
    ImagePathInCategory(t2, u2, catName);
    var dir := CategoryImageDir(catName);
    if ImagePath(t1, u1, catName) == ImagePath(t2, u2, catName) {
      var f1, f2 := ImageFilename(t1, u1), ImageFilename(t2, u2);
      assert (dir + f1)[|dir|..] == f1 && (dir + f2)[|dir|..] == f2;
      ImageFilenameNamesUpc(t1, u1, t2, u2);
    }
  }
}
