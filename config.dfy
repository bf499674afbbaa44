/** The fixed configuration both entry points share. */
module Config {

  const DEFAULT_MAX_FILE_SIZE_MB: int := 10
  const TEXT_DETECTION_THRESHOLD: real := 0.85
  const BINARY_SAMPLE_SIZE: nat := 8192
  const BYTES_PER_MB: nat := 1024 * 1024

  const EXIT_OK: int := 0
  const EXIT_NO_ARGUMENTS: int := 1
  const EXIT_NO_FILES: int := 2
  const EXIT_RUNTIME_ERROR: int := 3

  /** Directory names that a walk does not descend into. */
  const EXCLUDED_DIRECTORIES: set<string> := {
    ".git", ".svn", ".hg", "node_modules", "__pycache__", ".venv", "venv", "env", "dist", "build", "out"
  }

  /** A file suffix: a dot followed by at least one character. */
  type Extension = e: string | |e| >= 2 && e[0] == '.' witness ".x"

  /** Lower-cased suffixes of the file types that are merged, in the groups the program lists them on. */
  const SUPPORTED_EXTENSIONS: set<Extension> :=
      DOCUMENT_EXTENSIONS
    + MARKUP_EXTENSIONS
    + DATA_EXTENSIONS
    + SETTINGS_EXTENSIONS
    + PYTHON_EXTENSIONS
    + JAVASCRIPT_EXTENSIONS
    + JAVA_AND_C_EXTENSIONS
    + DOTNET_GO_RUST_KOTLIN_EXTENSIONS
    + SWIFT_DART_PHP_RUBY_EXTENSIONS
    + SCALA_GROOVY_EXTENSIONS
    + SHELL_EXTENSIONS
    + SQL_EXTENSIONS
    + TEX_EXTENSIONS
    + PATCH_EXTENSIONS
    + RTF_EXTENSIONS

  const DOCUMENT_EXTENSIONS: set<Extension> := {".txt", ".log", ".md", ".rst", ".adoc", ".asciidoc"}
  const MARKUP_EXTENSIONS: set<Extension> := {".xml", ".xsd", ".xsl", ".xslt", ".html", ".htm", ".svg"}
  const DATA_EXTENSIONS: set<Extension> := {".json", ".jsonc", ".json5", ".yaml", ".yml", ".csv", ".tsv"}
  const SETTINGS_EXTENSIONS: set<Extension> := {".properties", ".ini", ".cfg", ".conf", ".toml"}
  const PYTHON_EXTENSIONS: set<Extension> := {".py", ".pyw"}
  const JAVASCRIPT_EXTENSIONS: set<Extension> := {".js", ".mjs", ".cjs", ".ts", ".tsx", ".jsx"}
  const JAVA_AND_C_EXTENSIONS: set<Extension> := {".java", ".c", ".h", ".cpp", ".hpp"}
  const DOTNET_GO_RUST_KOTLIN_EXTENSIONS: set<Extension> := {".cs", ".go", ".rs", ".kt", ".kts"}
  const SWIFT_DART_PHP_RUBY_EXTENSIONS: set<Extension> := {".swift", ".dart", ".php", ".rb"}
  const SCALA_GROOVY_EXTENSIONS: set<Extension> := {".scala", ".groovy"}
  const SHELL_EXTENSIONS: set<Extension> := {".sh", ".bash", ".bat", ".cmd", ".ps1"}
  const SQL_EXTENSIONS: set<Extension> := {".sql"}
  const TEX_EXTENSIONS: set<Extension> := {".tex", ".latex", ".bib"}
  const PATCH_EXTENSIONS: set<Extension> := {".diff", ".patch"}
  const RTF_EXTENSIONS: set<Extension> := {".rtf"}

  /** Lower-cased whole file names that are merged whatever their suffix. */
  const SUPPORTED_FILENAMES: set<string> := {
    "dockerfile", ".env", ".env.example", ".gitignore", ".gitattributes", "pom.xml", "gradle.build"
  }

  /** The prefix and suffix of the files the program itself writes. */
  const OUTPUT_PREFIX: string := "output-"
  const OUTPUT_SUFFIX: string := ".txt"
}
